/**
 `SecurityEventStore`: adding, evicting and re-correlating events in place.
 */
module SecurityEventStore {
  import opened Wrappers
  import opened SecurityEvents
  import opened Paging

  // ---------------------------------------------------- what operations leave

  predicate Crowded(s: seq<Stored>, need: nat, capacity: nat, maxBytes: nat) {
    |s| >= capacity || (|s| > 0 && Sum(s) + need > maxBytes)
  }

  /** What is left after making room for `need` bytes. */
  function Room(s: seq<Stored>, need: nat, capacity: nat, maxBytes: nat): seq<Stored>
    requires capacity > 0
  {
    if Crowded(s, need, capacity, maxBytes) then Room(s[1..], need, capacity, maxBytes) else s
  }

  /** Room drops the shortest possible run of oldest events. */
  lemma {:induction false} RoomIsLeast(s: seq<Stored>, need: nat, capacity: nat, maxBytes: nat) returns (k: nat)
    requires capacity > 0
    ensures k <= |s| && Room(s, need, capacity, maxBytes) == s[k..] && !Crowded(s[k..], need, capacity, maxBytes)
    ensures forall j :: 0 <= j < k ==> Crowded(s[j..], need, capacity, maxBytes)
  {
    k := 0;
    if Crowded(s, need, capacity, maxBytes) {
      var rest := RoomIsLeast(s[1..], need, capacity, maxBytes);
      k := rest + 1;
      assert s[1..][rest..] == s[k..];
      forall j | 0 <= j < k ensures Crowded(s[j..], need, capacity, maxBytes) {
        if j > 0 { assert s[1..][j - 1..] == s[j..]; }
      }
    }
  }

  /** Both limits hold once there is room, unless the event alone is too large. */
  lemma RoomFits(s: seq<Stored>, need: nat, capacity: nat, maxBytes: nat)
    requires capacity > 0
    ensures var r := Room(s, need, capacity, maxBytes);
            |r| < capacity && (need <= maxBytes ==> Sum(r) + need <= maxBytes) && (need > maxBytes ==> r == [])
  {
    var k := RoomIsLeast(s, need, capacity, maxBytes);
  }

  /** What is left after shedding events older than `id` to gain `delta` bytes. */
  function Shed(s: seq<Stored>, id: string, delta: int, maxBytes: nat): seq<Stored> {
    if Sum(s) + delta > maxBytes && |s| > 1 && s[0].event.id != id then Shed(s[1..], id, delta, maxBytes) else s
  }

  /** Shedding reaches the budget if and only if what is kept anyway fits it. */
  lemma {:induction false} ShedFits(s: seq<Stored>, id: string, p: nat, delta: int, maxBytes: nat)
    requires p < |s| && s[p].event.id == id && forall j :: 0 <= j < p ==> s[j].event.id != id
    ensures var r := Shed(s, id, delta, maxBytes);
            && (Sum(r) + delta <= maxBytes <==> Sum(s) + delta <= maxBytes || Sum(s[p..]) + delta <= maxBytes)
            && |s| - p <= |r| <= |s| && r == s[|s| - |r|..]
  {
    if Sum(s) + delta > maxBytes && |s| > 1 && s[0].event.id != id {
      var t := s[1..];
      assert t[p - 1..] == s[p..];
      ShedFits(t, id, p - 1, delta, maxBytes);
      var r := Shed(t, id, delta, maxBytes);
      assert t[|t| - |r|..] == s[|s| - |r|..];
      SuffixSum(t, p - 1);
    } else {
      SuffixSum(s, p);
      assert s[|s| - |s|..] == s;
      if p == 0 { assert s[p..] == s; }
    }
  }

  lemma SuffixSum(s: seq<Stored>, p: nat)
    requires p <= |s|
    ensures Sum(s) == Sum(s[..p]) + Sum(s[p..])
  {
    SumAppend(s[..p], s[p..]);
    assert s[..p] + s[p..] == s;
  }

  lemma DistinctIds(c: Core, i: nat, j: nat)
    requires Shape(c) && Indexed(c) && i < c.count && j < c.count && At(c, i).event.id == At(c, j).event.id
    ensures i == j
  {
    SlotsDiffer(c, i, j);
  }

  // ------------------------------------------------------------------ the store

  class Store {
    const capacity: nat
    const maxBytes: nat
    const size: Event -> nat
    const stream: string
    const items: array<Stored>
    var index: map<string, nat>
    var head: nat
    var count: nat
    var bytes: int
    var next: nat
    var stats: Stats

    ghost function C(): Core
      reads this, items
    {
      Core(items[..], index, head, count, bytes, next, stats)
    }

    ghost predicate Ok()
      reads this, items
    {
      items.Length == capacity && Valid(C(), capacity, maxBytes, size)
    }

    ghost function Events(): seq<Stored>
      requires Ok()
      reads this, items
    {
      Contents(C())
    }

    /** `NewSecurityEventStore`; the encoder gives the size of an event. */
    constructor (slots: int, budget: int, encoder: Event -> nat, name: string)
      ensures Ok() && fresh(items) && Events() == [] && next == 0 && size == encoder && stream == name
      ensures capacity == if slots <= 0 then 5000 else slots
      ensures maxBytes == if budget <= 0 then 16777216 else budget
    {
      capacity := if slots <= 0 then 5000 else slots;
      maxBytes := if budget <= 0 then 16777216 else budget;
      size, stream := encoder, name;
      items := new Stored[if slots <= 0 then 5000 else slots](i => BLANK);
      index, head, count, bytes, next, stats := map[], 0, 0, 0, 0, Stats(0, 0, 0, 0);
    }

    /** What `Query` copies out under the lock. */
    ghost function Copied(): Snapshot
      requires Ok()
      reads this, items
    {
      Snapshot(EventsOf(Events()), stream, next, stats.evicted)
    }

    /** `Query` */
    method Query(q: Query, keep: Event -> bool) returns (page: Page)
      requires Ok()
      ensures page == PageOf(Copied(), q, keep) && RisingEvents(Copied().events, next)
    {
      hide Valid, Contents, PageOf;
      var events := Copy();
      CopyRises(C(), capacity, maxBytes, size);
      page := List(Snapshot(events, stream, next, stats.evicted), q, keep);
    }

    /** The stored events, oldest first. */
    method Copy() returns (events: seq<Event>)
      requires Ok()
      ensures events == EventsOf(Events())
    {
      hide Valid, Contents, Indexed, Sum;
      ghost var c := C();
      Facts(c, capacity, maxBytes, size);
      events := [];
      for i := 0 to count
        invariant events == EventsOf(Contents(c)[..i])
      {
        SlotIsModulo(c, i);
        InOrder(c, i);
        assert Contents(c)[..i + 1][..i] == Contents(c)[..i];
        events := events + [items[(head + i) % capacity].event];
      }
      assert Contents(c)[..count] == Contents(c);
    }

    /** `evictOldestLocked` */
    method EvictOldest()
      requires Ok()
      modifies this, items
      ensures Ok()
      ensures C() == if old(count) == 0 then old(C()) else Evicted(old(C()))
      ensures old(count) > 0 ==> Events() == old(Events())[1..]
    {
      hide Valid, Contents, Indexed;
      ghost var was := C();
      Facts(was, capacity, maxBytes, size);
      if count == 0 { return; }
      EvictedValid(was, capacity, maxBytes, size);
      SlotIsModulo(was, 1);
      var oldest := items[head];
      index := index - {oldest.event.id};
      bytes := bytes - oldest.size;
      items[head] := BLANK;
      head := (head + 1) % capacity;
      count := count - 1;
      stats := stats.(evicted := stats.evicted + 1);
      assert C() == Evicted(was);
    }

    /** `Add` */
    method Add(event: Event) returns (r: Option<Event>, added: bool)
      requires Ok()
      modifies this, items
      ensures Ok()
      ensures event.id == "" ==> r == None && !added && C() == old(C())
      ensures event.id != "" && size(event) > maxBytes ==> r == None && !added && C() == Rejected(old(C()))
      ensures event.id != "" && size(event) <= maxBytes && event.id in old(index) ==>
                && !added && C() == old(C()).(stats := old(stats).(duplicates := old(stats).duplicates + 1))
                && exists x :: x in old(Events()) && x.event.id == event.id && r == Some(x.event)
      ensures event.id != "" && size(event) <= maxBytes && event.id !in old(index) ==>
                Adds(old(C()), event, capacity, maxBytes, size, C(), r, added)
    {
      hide Valid, Contents, Indexed, Adds;
      ghost var c := C();
      Facts(c, capacity, maxBytes, size);
      if event.id == "" { return None, false; }
      if size(event) > maxBytes {
        Bookkept(c, c.next, c.stats.(rejected := c.stats.rejected + 1), capacity, maxBytes, size);
        stats := stats.(rejected := stats.rejected + 1);
        return None, false;
      }
      if event.id in index {
        Bookkept(c, c.next, c.stats.(duplicates := c.stats.duplicates + 1), capacity, maxBytes, size);
        ghost var p := Found(c, event.id, capacity, maxBytes, size);
        assert Contents(c)[p] in Contents(c);
        stats := stats.(duplicates := stats.duplicates + 1);
        return Some(items[index[event.id]].event), false;
      }
      r, added := AddFresh(event);
    }

    /** The rest of `Add`, for an id that is not stored. */
    method AddFresh(event: Event) returns (r: Option<Event>, added: bool)
      requires Ok() && event.id !in index
      modifies this, items
      ensures Ok()
      ensures Adds(old(C()), event, capacity, maxBytes, size, C(), r, added)
    {
      hide Valid, Contents, Indexed, Sum;
      ghost var before := C();
      Facts(before, capacity, maxBytes, size);
      Bookkept(before, before.next + 1, before.stats, capacity, maxBytes, size);
      next := next + 1;
      assert C() == before.(next := before.next + 1);
      var e := event.(sequence := next);
      var need := size(e);
      MakeRoom(need, event.id);
      ghost var c := C();
      Facts(c, capacity, maxBytes, size);
      RoomFits(Contents(before), need, capacity, maxBytes);
      if need > maxBytes {
        Bookkept(c, c.next, c.stats.(rejected := c.stats.rejected + 1), capacity, maxBytes, size);
        stats := stats.(rejected := stats.rejected + 1);
        assert C() == Rejected(c);
        return None, false;
      }
      Append(Stored(e, need));
      return Some(e), true;
    }

    method Append(x: Stored)
      requires Ok() && count < capacity && x.event.id !in index && x.size == size(x.event) && bytes + x.size <= maxBytes
      requires 0 < x.event.sequence == next && forall y :: y in Events() ==> y.event.sequence < next
      modifies this, items
      ensures Ok() && C() == Pushed(old(C()), x) && Events() == old(Events()) + [x]
    {
      hide Valid, Indexed;
      ghost var c := C();
      Facts(c, capacity, maxBytes, size);
      forall i | 0 <= i < c.count
        ensures Contents(c)[i].event.sequence < c.next
      {
        assert Contents(c)[i] in Contents(c);
      }
      PushedValid(c, x, capacity, maxBytes, size);
      SlotIsModulo(c, c.count);
      var slot := (head + count) % capacity;
      items[slot] := x;
      index := index[x.event.id := slot];
      count := count + 1;
      bytes := bytes + x.size;
      stats := stats.(added := stats.added + 1);
      assert C() == Pushed(c, x);
    }

    /** Evict from the oldest end until both limits leave room. */
    method MakeRoom(need: nat, ghost id: string)
      requires Ok() && id !in index
      modifies this, items
      ensures Ok() && id !in index && next == old(next)
      ensures Events() == Room(old(Events()), need, capacity, maxBytes)
      ensures forall x :: x in Events() ==> x in old(Events())
      ensures stats.rejected == old(stats).rejected && stats.duplicates == old(stats).duplicates
              && stats.added == old(stats).added
    {
      hide Valid, Contents, Indexed, Sum;
      ghost var before := Events();
      Facts(C(), capacity, maxBytes, size);
      while count >= capacity || (count > 0 && bytes + need > maxBytes)
        invariant Ok() && next == old(next) && id !in index
        invariant count == |Events()| && bytes == Sum(Events())
        invariant Room(Events(), need, capacity, maxBytes) == Room(before, need, capacity, maxBytes)
        invariant forall x :: x in Events() ==> x in before
        invariant stats.rejected == old(stats).rejected && stats.duplicates == old(stats).duplicates
                  && stats.added == old(stats).added
        decreases count
      {
        EvictOldest();
        Facts(C(), capacity, maxBytes, size);
      }
    }
  
    /** `UpdateCorrelation` */
    method UpdateCorrelation(id: string, to: Correlation) returns (r: Option<Event>)
      requires Ok()
      modifies this, items
      ensures Ok() && Updates(old(C()), id, to, maxBytes, size, C(), r)
    {
      hide Valid, Contents, Indexed, Sum, Shed, Position, Slot;
      ghost var c := C();
      Facts(c, capacity, maxBytes, size);
      if !ValidState(to.state) || id !in index { return None; }
      ghost var p := Found(c, id, capacity, maxBytes, size);
      PositionIs(Contents(c), id, p);
      var record := items[index[id]];
      assert record == Contents(c)[p];
      if record.event.correlation == to { return Some(record.event); }
      var updated := record.event.(correlation := to, revision := record.event.revision + 1);
      var need := size(updated);
      if need > maxBytes {
        Reject();
        return None;
      }
      var projected := bytes - record.size + need;
      SuffixSum(Contents(c), p);
      if projected > maxBytes {
        var reclaimable := Reclaimable(id);
        if projected - reclaimable > maxBytes {
          Reject();
          return None;
        }
      }
      Resize(id, Stored(updated, need));
      return Some(updated);
    }

    /** Store the new size of an event, shedding older ones for it. */
    method Resize(id: string, x: Stored)
      requires Ok() && id in index && Replaces(Events(), id, x, size) && Shrinkable(Events(), id, x, maxBytes)
      modifies this, items
      ensures Ok() && next == old(next)
      ensures Resized(old(Events()), id, x, maxBytes, Events())
      ensures stats == old(stats).(evicted := old(stats).evicted + |old(Events())| - |Events()|)
    {
      hide Valid, Contents, Indexed, Sum, Shed, Position, Slot;
      ghost var c := C();
      Facts(c, capacity, maxBytes, size);
      ghost var p := Found(c, id, capacity, maxBytes, size);
      PositionIs(Contents(c), id, p);
      var delta := x.size - items[index[id]].size;
      ShedFits(Contents(c), id, p, delta, maxBytes);
      ShedOlder(id, delta);
      Facts(C(), capacity, maxBytes, size);
      ghost var kept := Events();
      PositionIs(kept, id, p - (|Contents(c)| - |kept|));
      Overwrite(id, x);
    }

    method Reject()
      requires Ok()
      modifies this
      ensures Ok() && C() == Rejected(old(C()))
    {
      hide Valid, Contents, Indexed;
      ghost var c := C();
      Bookkept(c, c.next, c.stats.(rejected := c.stats.rejected + 1), capacity, maxBytes, size);
      stats := stats.(rejected := stats.rejected + 1);
      assert C() == Rejected(c);
    }

    /** The bytes of the events older than `id`. */
    method Reclaimable(id: string) returns (r: nat)
      requires Ok() && id in index
      ensures Position(Events(), id) < |Events()| && r == Sum(Events()[..Position(Events(), id)])
    {
      hide Valid, Contents, Indexed, Sum;
      ghost var c := C();
      Facts(c, capacity, maxBytes, size);
      ghost var p := Found(c, id, capacity, maxBytes, size);
      PositionIs(Events(), id, p);
      r := 0;
      var i := 0;
      assert Sum(Events()[..0]) == 0 by { SumEmpty(Events()[..0]); }
      while i < count
        invariant i <= p
        invariant r == Sum(Events()[..i])
        decreases count - i
      {
        SlotIsModulo(c, i);
        InOrder(c, i);
        var candidate := items[(head + i) % capacity];
        if candidate.event.id == id { return; }
        SumNext(Events(), i);
        r := r + candidate.size;
        i := i + 1;
      }
    }

    /** Evict events older than `id` while `delta` more bytes do not fit. */
    method ShedOlder(id: string, delta: int)
      requires Ok() && id in index
      modifies this, items
      ensures Ok() && id in index && next == old(next)
      ensures Events() == Shed(old(Events()), id, delta, maxBytes)
      ensures stats == old(stats).(evicted := stats.evicted)
    {
      hide Valid, Contents, Indexed, Sum;
      ghost var before := Events();
      Facts(C(), capacity, maxBytes, size);
      while bytes + delta > maxBytes && count > 1 && items[head].event.id != id
        invariant Ok() && id in index && next == old(next)
        invariant count == |Events()| && bytes == Sum(Events()) && 0 <= head < items.Length
        invariant count > 0 ==> items[head] == Events()[0]
        invariant Shed(Events(), id, delta, maxBytes) == Shed(before, id, delta, maxBytes)
        invariant stats == old(stats).(evicted := stats.evicted)
        decreases count
      {
        StillIndexed(C(), id);
        EvictOldest();
        Facts(C(), capacity, maxBytes, size);
      }
    }

    /** Replace the event stored under its id. */
    method Overwrite(id: string, x: Stored)
      requires Ok() && id in index && Replaces(Events(), id, x, size)
      requires bytes - Events()[Position(Events(), id)].size + x.size <= maxBytes
      modifies this, items
      ensures Ok() && next == old(next) && stats == old(stats)
      ensures Events() == old(Events())[old(Position(Events(), id)) := x]
    {
      hide Valid, Indexed, Sum;
      ghost var c := C();
      Facts(c, capacity, maxBytes, size);
      ghost var p := Found(c, id, capacity, maxBytes, size);
      PositionIs(Contents(c), id, p);
      ReplacedValid(c, p, x, capacity, maxBytes, size);
      var slot := index[id];
      bytes := bytes - items[slot].size + x.size;
      items[slot] := x;
      assert C() == Replaced(c, Slot(c, p), x, c.bytes - Contents(c)[p].size + x.size);
    }
  }

  /** The place of the first event with an id. */
  function Position(s: seq<Stored>, id: string): nat {
    if |s| == 0 || s[0].event.id == id then 0 else 1 + Position(s[1..], id)
  }

  /** The new form of the event stored under an id. */
  predicate Replaces(s: seq<Stored>, id: string, x: Stored, size: Event -> nat) {
    var p := Position(s, id);
    && p < |s| && x.event.id == id && x.event.sequence == s[p].event.sequence && x.size == size(x.event)
  }

  /** The new size fits, if need be without everything older. */
  predicate Shrinkable(s: seq<Stored>, id: string, x: Stored, maxBytes: nat) {
    var p := Position(s, id);
    && p < |s|
    && (Sum(s) + x.size - s[p].size <= maxBytes || Sum(s[p..]) + x.size - s[p].size <= maxBytes)
  }

  /** Only older events went, as few as needed, and the event has its new form. */
  predicate Resized(s: seq<Stored>, id: string, x: Stored, maxBytes: nat, t: seq<Stored>) {
    var p := Position(s, id);
    && p < |s|
    && var kept := Shed(s, id, x.size - s[p].size, maxBytes);
       |s| - p <= |kept| <= |s| && t == kept[p - (|s| - |kept|) := x]
  }

  lemma {:induction false} PositionIs(s: seq<Stored>, id: string, p: nat)
    requires p < |s| && s[p].event.id == id && forall j :: 0 <= j < p ==> s[j].event.id != id
    ensures Position(s, id) == p
  {
    if p > 0 { PositionIs(s[1..], id, p - 1); }
  }

  /**
   Re-correlation: refused without evicting anything when the events that must
   stay do not fit; otherwise only older events go, as few as needed.
   */
  ghost predicate Updates(c: Core, id: string, to: Correlation, maxBytes: nat, size: Event -> nat, d: Core,
                          r: Option<Event>)
    requires Shape(c) && Shape(d)
  {
    var s, p := Contents(c), Position(Contents(c), id);
    if !ValidState(to.state) || id !in c.index then r == None && d == c
    else
      && p < |s|
      && var was := s[p];
         var e := was.event.(correlation := to, revision := was.event.revision + 1);
         var delta := size(e) - was.size;
         if was.event.correlation == to then r == Some(was.event) && d == c
         else if size(e) > maxBytes || (Sum(s) + delta > maxBytes && Sum(s[p..]) + delta > maxBytes)
           then r == None && d == Rejected(c)
         else
           var kept := Shed(s, id, delta, maxBytes);
           && r == Some(e) && |s| - p <= |kept| <= |s|
           && Contents(d) == kept[p - (|s| - |kept|) := Stored(e, size(e))]
           && d.stats == c.stats.(evicted := c.stats.evicted + |s| - |kept|) && d.next == c.next
  }

  lemma SumEmpty(s: seq<Stored>)
    requires s == []
    ensures Sum(s) == 0
  {
  }

  lemma SumNext(s: seq<Stored>, i: nat)
    requires i < |s|
    ensures Sum(s[..i + 1]) == Sum(s[..i]) + s[i].size
  {
    SumAppend(s[..i], [s[i]]);
    assert s[..i + 1] == s[..i] + [s[i]];
    assert [s[i]][1..] == [];
  }

  lemma InOrder(c: Core, i: nat)
    requires Shape(c) && i < c.count
    ensures Contents(c)[i] == c.ring[Slot(c, i)]
  {
  }

  lemma StillIndexed(c: Core, id: string)
    requires Shape(c) && c.count > 0 && id in c.index && c.ring[c.head].event.id != id
    ensures id in Evicted(c).index
  {
  }

  function Rejected(c: Core): Core {
    c.(stats := c.stats.(rejected := c.stats.rejected + 1))
  }

  /** A new event: room is made, then it is appended, unless it alone is too large. */
  ghost predicate Adds(c: Core, event: Event, capacity: nat, maxBytes: nat, size: Event -> nat, d: Core,
                       r: Option<Event>, added: bool)
    requires Shape(c) && Shape(d) && capacity > 0
  {
    var e := event.(sequence := c.next + 1);
    && d.next == e.sequence && added == (size(e) <= maxBytes)
    && r == (if added then Some(e) else None)
    && Contents(d) == Room(Contents(c), size(e), capacity, maxBytes) + (if added then [Stored(e, size(e))] else [])
    && d.stats.rejected == c.stats.rejected + (if added then 0 else 1)
    && d.stats.duplicates == c.stats.duplicates && d.stats.added == c.stats.added + (if added then 1 else 0)
  }

  /** An event that outgrows the budget only with its sequence number empties the store before it is refused. */
  lemma LateRefusalEmpties(c: Core, event: Event, capacity: nat, maxBytes: nat, size: Event -> nat, d: Core,
                           r: Option<Event>, added: bool)
    requires Shape(c) && Shape(d) && capacity > 0 && Adds(c, event, capacity, maxBytes, size, d, r, added)
    ensures !added <==> size(event.(sequence := c.next + 1)) > maxBytes
    ensures !added ==> Contents(d) == []
  {
    RoomFits(Contents(c), size(event.(sequence := c.next + 1)), capacity, maxBytes);
  }

  /** A detail of given length and the decimal digits of the sequence. */
  function DetailAndDigits(e: Event): nat {
    |e.detail| + if e.sequence < 10 then 1 else 2
  }

  const NINTH := Stored(Event("i", 9, Correlation("", "", 0, "", ""), 0, ""), 1)
  const TENTH := Event("j", 0, Correlation("", "", 0, "", ""), 0, "detail...")
  const NINE_ADDED := Core([NINTH], map["i" := 0], 0, 1, 1, 9, Stats(9, 8, 0, 0))
  const NONE_LEFT := Core([BLANK], map[], 0, 0, 0, 10, Stats(9, 9, 0, 1))

  /**
   A store of one slot and ten bytes after nine events: the next event fits
   with one digit, not with two, and evicts the ninth before it is refused.
   */
  lemma LateRefusalWitness()
    ensures Valid(NINE_ADDED, 1, 10, DetailAndDigits) && Contents(NINE_ADDED) == [NINTH] && Tip([NINTH], 9)
    ensures DetailAndDigits(TENTH) <= 10 < DetailAndDigits(TENTH.(sequence := 10))
    ensures Valid(NONE_LEFT, 1, 10, DetailAndDigits) && Contents(NONE_LEFT) == []
    ensures Adds(NINE_ADDED, TENTH, 1, 10, DetailAndDigits, NONE_LEFT, None, false)
  {
    var c := NINE_ADDED;
    assert Slot(c, 0) == 0 && At(c, 0) == NINTH && Contents(c) == [NINTH];
    assert Sum([NINTH]) == 1 by { assert [NINTH][1..] == []; }
    assert Used(c, "i");
    RoomFits([NINTH], 11, 1, 10);
  }

  // --------------------------------------------------- what a reader can see

  function EventsOf(s: seq<Stored>): (r: seq<Event>)
    ensures |r| == |s| && forall i :: 0 <= i < |s| ==> r[i] == s[i].event
  {
    if |s| == 0 then [] else EventsOf(s[..|s| - 1]) + [s[|s| - 1].event]
  }

  lemma CopyRises(c: Core, capacity: nat, maxBytes: nat, size: Event -> nat)
    requires Valid(c, capacity, maxBytes, size)
    ensures RisingEvents(EventsOf(Contents(c)), c.next)
  {
    hide Contents, Indexed, Sum;
  }

  /** Adding appends the event with the counter, or leaves nothing. */
  lemma AddsTip(c: Core, event: Event, capacity: nat, maxBytes: nat, size: Event -> nat, d: Core, r: Option<Event>,
                added: bool)
    requires Shape(c) && Shape(d) && capacity > 0 && Adds(c, event, capacity, maxBytes, size, d, r, added)
    ensures Tip(Contents(d), d.next)
  {
    LateRefusalEmpties(c, event, capacity, maxBytes, size, d, r, added);
  }

  /** Re-correlation never sheds the newest event. */
  lemma UpdatesTip(c: Core, id: string, to: Correlation, maxBytes: nat, size: Event -> nat, d: Core, r: Option<Event>)
    requires Shape(c) && Shape(d) && Updates(c, id, to, maxBytes, size, d, r) && Tip(Contents(c), c.next)
    ensures Tip(Contents(d), d.next)
  {
    hide Sum, Position;
    var s, p := Contents(c), Position(Contents(c), id);
    if d == c || d == Rejected(c) {
      SameRing(c, d);
    } else {
      var e := s[p].event.(correlation := to, revision := s[p].event.revision + 1);
      ShedSuffix(s, id, size(e) - s[p].size, maxBytes);
    }
  }

  lemma {:induction false} ShedSuffix(s: seq<Stored>, id: string, delta: int, maxBytes: nat)
    ensures var r := Shed(s, id, delta, maxBytes);
            |r| <= |s| && r == s[|s| - |r|..] && (|s| > 0 ==> |r| > 0)
  {
    if Sum(s) + delta > maxBytes && |s| > 1 && s[0].event.id != id {
      hide Sum;
      var r := Shed(s[1..], id, delta, maxBytes);
      assert Shed(s, id, delta, maxBytes) == r;
      hide Shed;
      ShedSuffix(s[1..], id, delta, maxBytes);
      assert s[1..][|s| - 1 - |r|..] == s[|s| - |r|..];
    }
  }

  lemma Facts(c: Core, capacity: nat, maxBytes: nat, size: Event -> nat)
    requires Valid(c, capacity, maxBytes, size)
    ensures Shape(c) && |c.ring| == capacity > 0 && |Contents(c)| == c.count && c.bytes == Sum(Contents(c)) <= maxBytes
    ensures c.count > 0 ==> Contents(c)[0] == c.ring[c.head]
    ensures forall x :: x in Contents(c) ==> x.event.sequence <= c.next && x.event.id in c.index
    ensures c.stats.added == c.count + c.stats.evicted
  {
    forall x | x in Contents(c) ensures x.event.sequence <= c.next && x.event.id in c.index {
      var i :| 0 <= i < c.count && Contents(c)[i] == x;
      assert x == At(c, i);
    }
  }

  lemma Bookkept(c: Core, next: nat, stats: Stats, capacity: nat, maxBytes: nat, size: Event -> nat)
    requires Valid(c, capacity, maxBytes, size) && next >= c.next && stats.added == c.stats.added
             && stats.evicted == c.stats.evicted
    ensures var d := c.(next := next, stats := stats);
            Valid(d, capacity, maxBytes, size) && Contents(d) == Contents(c)
  {
    var d := c.(next := next, stats := stats);
    SameRing(c, d);
  }

  lemma SameRing(c: Core, d: Core)
    requires Shape(c) && d.ring == c.ring && d.head == c.head && d.count == c.count && d.index == c.index
    ensures Shape(d) && Contents(d) == Contents(c) && (Indexed(c) ==> Indexed(d))
  {
    forall i | 0 <= i < c.count ensures Slot(d, i) == Slot(c, i) && At(d, i) == At(c, i) {}
    if Indexed(c) {
      forall id | id in d.index ensures Used(d, id) {
        assert Used(c, id);
        var i :| 0 <= i < c.count && At(c, i).event.id == id;
        assert At(d, i).event.id == id;
      }
    }
  }

  /** An indexed id is stored where the index says. */
  lemma Found(c: Core, id: string, capacity: nat, maxBytes: nat, size: Event -> nat) returns (p: nat)
    requires Valid(c, capacity, maxBytes, size) && id in c.index
    ensures p < c.count && Contents(c)[p] == At(c, p) && At(c, p).event.id == id && c.index[id] == Slot(c, p)
    ensures forall j :: 0 <= j < c.count && Contents(c)[j].event.id == id ==> j == p
  {
    assert Used(c, id);
    p :| 0 <= p < c.count && At(c, p).event.id == id;
    forall j | 0 <= j < c.count && Contents(c)[j].event.id == id ensures j == p { DistinctIds(c, j, p); }
  }
}
