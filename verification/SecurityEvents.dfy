/**
 The bounded security-event store: a ring array, an index from event id to
 slot, a byte budget and counters, all updated in place.
 */
module SecurityEvents {
  import opened Wrappers

  datatype Correlation = Correlation(session: string, policy: string, generation: nat, state: string, reason: string)

  /** `detail` stands for the fields no operation here changes. */
  datatype Event = Event(id: string, sequence: nat, correlation: Correlation, revision: nat, detail: string)

  datatype Stored = Stored(event: Event, size: nat)

  const BLANK: Stored := Stored(Event("", 0, Correlation("", "", 0, "", ""), 0, ""), 0)

  datatype Stats = Stats(added: nat, evicted: nat, duplicates: nat, rejected: nat)

  /** The fields of the store as one value. */
  datatype Core = Core(ring: seq<Stored>, index: map<string, nat>, head: nat, count: nat, bytes: int, next: nat,
                       stats: Stats)

  predicate ValidState(state: string) {
    state in {"CORRELATED", "UNCORRELATED", "AMBIGUOUS"}
  }

  // ----------------------------------------------------------------- the ring

  predicate Shape(c: Core) {
    c.head < |c.ring| && c.count <= |c.ring|
  }

  /** The slot `i` places behind the oldest one. */
  function Slot(c: Core, i: nat): (s: nat)
    requires Shape(c) && i <= |c.ring|
    ensures s < |c.ring|
  {
    if c.head + i < |c.ring| then c.head + i else c.head + i - |c.ring|
  }

  lemma SlotIsModulo(c: Core, i: nat)
    requires Shape(c) && i <= |c.ring|
    ensures Slot(c, i) == (c.head + i) % |c.ring|
  {
  }

  lemma SlotsDiffer(c: Core, i: nat, j: nat)
    requires Shape(c) && i < |c.ring| && j < |c.ring|
    ensures Slot(c, i) == Slot(c, j) <==> i == j
  {
  }

  function At(c: Core, i: nat): Stored
    requires Shape(c) && i < c.count
  {
    c.ring[Slot(c, i)]
  }

  /** Oldest first. */
  function Contents(c: Core): seq<Stored>
    requires Shape(c)
  {
    seq(c.count, i requires 0 <= i < c.count => At(c, i))
  }

  /** Every slot in use is indexed under its id. */
  predicate Listed(c: Core)
    requires Shape(c)
  {
    forall i :: 0 <= i < c.count ==> At(c, i).event.id in c.index && c.index[At(c, i).event.id] == Slot(c, i)
  }

  /** Nothing else is indexed. */
  predicate Used(c: Core, id: string)
    requires Shape(c)
  {
    exists i :: 0 <= i < c.count && At(c, i).event.id == id
  }

  /** The index names exactly the slots in use. */
  predicate Indexed(c: Core)
    requires Shape(c)
  {
    Listed(c) && forall id :: id in c.index ==> Used(c, id)
  }

  function Sum(s: seq<Stored>): nat {
    if |s| == 0 then 0 else s[0].size + Sum(s[1..])
  }

  lemma {:induction false} SumAppend(a: seq<Stored>, b: seq<Stored>)
    ensures Sum(a + b) == Sum(a) + Sum(b)
  {
    if |a| == 0 {
      assert a + b == b;
    } else {
      assert (a + b)[1..] == a[1..] + b;
      SumAppend(a[1..], b);
    }
  }

  /** Sequences start at one, rise strictly and none is ahead of the counter. */
  predicate Rising(s: seq<Stored>, next: nat) {
    && (forall i, j :: 0 <= i < j < |s| ==> s[i].event.sequence < s[j].event.sequence)
    && (forall i :: 0 <= i < |s| ==> 0 < s[i].event.sequence <= next)
  }

  /** Between two operations the newest event carries the counter. */
  predicate Tip(s: seq<Stored>, next: nat) {
    |s| > 0 ==> s[|s| - 1].event.sequence == next
  }

  predicate Measured(s: seq<Stored>, size: Event -> nat) {
    forall i :: 0 <= i < |s| ==> s[i].size == size(s[i].event)
  }

  predicate Valid(c: Core, capacity: nat, maxBytes: nat, size: Event -> nat) {
    && |c.ring| == capacity && Shape(c) && Indexed(c)
    && Rising(Contents(c), c.next) && Measured(Contents(c), size)
    && c.bytes == Sum(Contents(c)) && c.bytes <= maxBytes
    && c.stats.added == c.count + c.stats.evicted
  }

  // ------------------------------------------------------------- core updates

  function Evicted(c: Core): Core
    requires Shape(c) && c.count > 0
  {
    var was := c.ring[c.head];
    Core(c.ring[c.head := BLANK], c.index - {was.event.id}, Slot(c, 1), c.count - 1, c.bytes - was.size, c.next,
         c.stats.(evicted := c.stats.evicted + 1))
  }

  function Pushed(c: Core, x: Stored): Core
    requires Shape(c) && c.count < |c.ring|
  {
    var slot := Slot(c, c.count);
    Core(c.ring[slot := x], c.index[x.event.id := slot], c.head, c.count + 1, c.bytes + x.size, c.next,
         c.stats.(added := c.stats.added + 1))
  }

  function Replaced(c: Core, slot: nat, x: Stored, bytes: int): Core
    requires slot < |c.ring|
  {
    c.(ring := c.ring[slot := x], bytes := bytes)
  }

  lemma EvictedAt(c: Core, i: nat)
    requires Shape(c) && c.count > 0 && i < c.count - 1
    ensures Shape(Evicted(c)) && Slot(Evicted(c), i) == Slot(c, i + 1) && At(Evicted(c), i) == At(c, i + 1)
  {
    SlotsDiffer(c, 0, i + 1);
  }

  lemma EvictedContents(c: Core)
    requires Shape(c) && Indexed(c) && c.count > 0
    ensures Shape(Evicted(c)) && Contents(Evicted(c)) == Contents(c)[1..] && Indexed(Evicted(c))
  {
    hide Slot, At;
    var d := Evicted(c);
    forall i | 0 <= i < d.count ensures At(d, i) == At(c, i + 1) && Slot(d, i) == Slot(c, i + 1) { EvictedAt(c, i); }
    OldestIsHead(c);
    forall i | 0 <= i < d.count ensures At(d, i).event.id in d.index && d.index[At(d, i).event.id] == Slot(d, i) {
      SlotsDiffer(c, 0, i + 1);
      assert At(c, i + 1).event.id in c.index && At(c, 0).event.id in c.index;
    }
    forall id | id in d.index ensures Used(d, id) {
      assert Used(c, id);
      var i :| 0 <= i < c.count && At(c, i).event.id == id;
      assert At(d, i - 1).event.id == id;
    }
  }

  lemma OldestIsHead(c: Core)
    requires Shape(c) && c.count > 0
    ensures Slot(c, 0) == c.head && At(c, 0) == c.ring[c.head]
  {
  }

  lemma PushedAt(c: Core, x: Stored, i: nat)
    requires Shape(c) && c.count < |c.ring| && i <= c.count
    ensures Shape(Pushed(c, x)) && Slot(Pushed(c, x), i) == Slot(c, i)
    ensures At(Pushed(c, x), i) == if i == c.count then x else At(c, i)
  {
    SlotsDiffer(c, i, c.count);
  }

  lemma PushedContents(c: Core, x: Stored)
    requires Shape(c) && Indexed(c) && c.count < |c.ring| && x.event.id !in c.index
    ensures Shape(Pushed(c, x)) && Contents(Pushed(c, x)) == Contents(c) + [x] && Indexed(Pushed(c, x))
  {
    hide Slot, At;
    var d := Pushed(c, x);
    forall i | 0 <= i < d.count
      ensures At(d, i) == (if i == c.count then x else At(c, i)) && Slot(d, i) == Slot(c, i)
    {
      PushedAt(c, x, i);
    }
    forall id | id in d.index ensures Used(d, id) {
      if id == x.event.id {
        assert At(d, c.count).event.id == id;
      } else {
        assert Used(c, id);
        var i :| 0 <= i < c.count && At(c, i).event.id == id;
        assert At(d, i).event.id == id;
      }
    }
  }

  lemma ReplacedAt(c: Core, i: nat, x: Stored, bytes: int, j: nat)
    requires Shape(c) && i < c.count && j < c.count
    ensures var d := Replaced(c, Slot(c, i), x, bytes);
            Shape(d) && Slot(d, j) == Slot(c, j) && At(d, j) == if i == j then x else At(c, j)
  {
    SlotsDiffer(c, i, j);
  }

  lemma ReplacedContents(c: Core, i: nat, x: Stored, bytes: int)
    requires Shape(c) && Indexed(c) && i < c.count && x.event.id == At(c, i).event.id
    ensures var d := Replaced(c, Slot(c, i), x, bytes);
            Shape(d) && Contents(d) == Contents(c)[i := x] && Indexed(d)
  {
    hide Slot, At;
    var d := Replaced(c, Slot(c, i), x, bytes);
    forall j | 0 <= j < c.count
      ensures At(d, j) == (if i == j then x else At(c, j)) && Slot(d, j) == Slot(c, j)
    {
      ReplacedAt(c, i, x, bytes, j);
    }
    forall id | id in d.index ensures Used(d, id) {
      assert Used(c, id);
      var j :| 0 <= j < c.count && At(c, j).event.id == id;
      assert At(d, j).event.id == id;
    }
  }

  // --------------------------------------------------- validity of the updates

  lemma EvictedValid(c: Core, capacity: nat, maxBytes: nat, size: Event -> nat)
    requires Valid(c, capacity, maxBytes, size) && c.count > 0
    ensures Valid(Evicted(c), capacity, maxBytes, size) && Contents(Evicted(c)) == Contents(c)[1..]
  {
    hide Slot, At, Indexed;
    EvictedContents(c);
    OldestIsHead(c);
    assert Contents(c)[0] == At(c, 0);
  }

  lemma PushedValid(c: Core, x: Stored, capacity: nat, maxBytes: nat, size: Event -> nat)
    requires Valid(c, capacity, maxBytes, size) && c.count < capacity && x.event.id !in c.index
    requires x.size == size(x.event) && c.bytes + x.size <= maxBytes && 0 < x.event.sequence == c.next
    requires forall i :: 0 <= i < c.count ==> Contents(c)[i].event.sequence < c.next
    ensures Valid(Pushed(c, x), capacity, maxBytes, size) && Contents(Pushed(c, x)) == Contents(c) + [x]
  {
    hide Slot, At, Indexed;
    PushedContents(c, x);
    SumAppend(Contents(c), [x]);
    assert Sum([x]) == x.size by { assert [x][1..] == []; }
  }

  lemma {:induction false} SumReplace(s: seq<Stored>, i: nat, x: Stored)
    requires i < |s|
    ensures Sum(s[i := x]) == Sum(s) - s[i].size + x.size
  {
    if i == 0 {
      assert s[0 := x][1..] == s[1..];
    } else {
      assert s[i := x][1..] == s[1..][i - 1 := x];
      SumReplace(s[1..], i - 1, x);
    }
  }

  lemma ReplacedValid(c: Core, i: nat, x: Stored, capacity: nat, maxBytes: nat, size: Event -> nat)
    requires Valid(c, capacity, maxBytes, size) && i < c.count
    requires var was := Contents(c)[i];
             && x.event.id == was.event.id && x.event.sequence == was.event.sequence && x.size == size(x.event)
             && c.bytes - was.size + x.size <= maxBytes
    ensures var d := Replaced(c, Slot(c, i), x, c.bytes - Contents(c)[i].size + x.size);
            Valid(d, capacity, maxBytes, size) && Contents(d) == Contents(c)[i := x]
  {
    hide Slot, Indexed;
    ReplacedContents(c, i, x, c.bytes - Contents(c)[i].size + x.size);
    hide At, Sum, Contents;
    SumReplace(Contents(c), i, x);
  }
}
