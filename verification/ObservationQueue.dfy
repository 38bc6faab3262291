/**
 The observation queue: any number of submitters reserve bytes with
 compare-and-swap on one counter, send without blocking and refund when the
 queue is full, while one loop receives and releases.  Each step is one atomic
 action of one party; the run interleaves them freely.
 */
module ObservationQueue {
  import opened Wrappers

  /**
   Where one call of `TrySubmit` stands: before its load, between load and
   compare-and-swap, holding its bytes, about to give them back, about to count
   a drop, or returned.
   */
  datatype Phase = Start | Trying(seen: int) | Holding | Refunding | Refusing | Returned(accepted: bool)

  datatype Submitter = Submitter(bytes: nat, phase: Phase)

  /** `consumer` is the item received and not yet released. */
  datatype State = State(
    counter: int, limit: nat, capacity: nat, queue: seq<nat>, consumer: Option<nat>, drops: nat,
    submitters: seq<Submitter>, handled: seq<nat>, accepted: seq<nat>)

  datatype Step =
    | Call(encoded: nat)
    | Load(i: nat)
    | Swap(i: nat)
    | Send(i: nat)
    | Refund(i: nat)
    | CountDrop(i: nat)
    | Receive
    | Release

  predicate At(s: State, i: nat, phase: Phase) {
    i < |s.submitters| && s.submitters[i].phase == phase
  }

  function To(s: State, i: nat, phase: Phase): seq<Submitter>
    requires i < |s.submitters|
  {
    s.submitters[i := s.submitters[i].(phase := phase)]
  }

  /** Items name their submitter; a step that is not enabled changes nothing. */
  function Next(s: State, step: Step): State {
    match step
    case Call(encoded) => s.(submitters := s.submitters + [Submitter(if encoded == 0 then 1 else encoded, Start)])
    case Load(i) =>
      if !At(s, i, Start) then s
      else if s.counter + s.submitters[i].bytes > s.limit then s.(submitters := To(s, i, Refusing))
      else s.(submitters := To(s, i, Trying(s.counter)))
    case Swap(i) =>
      if i >= |s.submitters| || !s.submitters[i].phase.Trying? then s
      else if s.counter != s.submitters[i].phase.seen then s.(submitters := To(s, i, Start))
      else s.(counter := s.counter + s.submitters[i].bytes, submitters := To(s, i, Holding))
    case Send(i) =>
      if !At(s, i, Holding) then s
      else if |s.queue| >= s.capacity then s.(submitters := To(s, i, Refunding))
      else s.(queue := s.queue + [i], accepted := s.accepted + [i], submitters := To(s, i, Returned(true)))
    case Refund(i) =>
      if !At(s, i, Refunding) then s
      else s.(counter := s.counter - s.submitters[i].bytes, submitters := To(s, i, Refusing))
    case CountDrop(i) =>
      if !At(s, i, Refusing) then s
      else s.(drops := s.drops + 1, submitters := To(s, i, Returned(false)))
    case Receive =>
      if s.consumer.Some? || |s.queue| == 0 then s
      else s.(consumer := Some(s.queue[0]), queue := s.queue[1..])
    case Release =>
      if s.consumer.None? || s.consumer.value >= |s.submitters| then s
      else s.(counter := s.counter - s.submitters[s.consumer.value].bytes, consumer := None,
              handled := s.handled + [s.consumer.value])
  }

  predicate Below(items: seq<nat>, n: nat) {
    forall k :: 0 <= k < |items| ==> items[k] < n
  }

  predicate Named(s: State) {
    && Below(s.queue, |s.submitters|)
    && (s.consumer.Some? ==> s.consumer.value < |s.submitters|)
  }

  // -------------------------------------------------------------- accounting

  /** Bytes of the items of a queue. */
  function QueuedBytes(queue: seq<nat>, submitters: seq<Submitter>): nat
    requires Below(queue, |submitters|)
  {
    if |queue| == 0 then 0 else submitters[queue[0]].bytes + QueuedBytes(queue[1..], submitters)
  }

  predicate Holds(p: Phase) {
    p.Holding? || p.Refunding?
  }

  /** Bytes reserved by calls that have neither enqueued nor refunded them. */
  function HeldBytes(submitters: seq<Submitter>): nat {
    if |submitters| == 0 then 0
    else HeldBytes(submitters[..|submitters| - 1])
         + if Holds(submitters[|submitters| - 1].phase) then submitters[|submitters| - 1].bytes else 0
  }

  function Refused(submitters: seq<Submitter>): nat {
    if |submitters| == 0 then 0
    else Refused(submitters[..|submitters| - 1]) + if submitters[|submitters| - 1].phase == Returned(false) then 1
      else 0
  }

  function InFlight(s: State): nat
    requires Named(s)
  {
    (if s.consumer.Some? then s.submitters[s.consumer.value].bytes else 0) + HeldBytes(s.submitters)
  }

  predicate Distinct(line: seq<nat>) {
    forall i, j :: 0 <= i < j < |line| ==> line[i] != line[j]
  }

  function Line(s: State): seq<nat> {
    s.handled + (if s.consumer.Some? then [s.consumer.value] else []) + s.queue
  }

  /** The counter is exact and bounded. */
  predicate Balanced(s: State) {
    && Named(s) && s.counter == QueuedBytes(s.queue, s.submitters) + InFlight(s) && s.counter <= s.limit
    && forall x :: x in s.submitters && x.phase.Trying? ==> x.phase.seen + x.bytes <= s.limit
  }

  /** Accepted items leave in the order they came, each once. */
  ghost predicate Accounted(s: State) {
    && Line(s) == s.accepted && Distinct(s.accepted)
    && (forall i: nat :: i in s.accepted <==> i < |s.submitters| && s.submitters[i].phase == Returned(true))
    && s.drops == Refused(s.submitters)
    && |s.queue| <= s.capacity
  }

  // --------------------------------------------------------- moving one phase

  lemma {:induction false} HeldAt(submitters: seq<Submitter>, i: nat, phase: Phase)
    requires i < |submitters|
    ensures var moved := submitters[i := submitters[i].(phase := phase)];
            HeldBytes(moved) == HeldBytes(submitters)
              - (if Holds(submitters[i].phase) then submitters[i].bytes else 0)
                  + (if Holds(phase) then submitters[i].bytes else 0)
  {
    var moved, k := submitters[i := submitters[i].(phase := phase)], |submitters| - 1;
    if i < k {
      HeldAt(submitters[..k], i, phase);
      assert moved[..k] == submitters[..k][i := submitters[i].(phase := phase)];
    } else {
      assert moved[..k] == submitters[..k];
    }
  }

  lemma {:induction false} RefusedAt(submitters: seq<Submitter>, i: nat, phase: Phase)
    requires i < |submitters|
    ensures var moved := submitters[i := submitters[i].(phase := phase)];
            Refused(moved) == Refused(submitters)
              - (if submitters[i].phase == Returned(false) then 1 else 0) + (if phase == Returned(false) then 1 else 0)
  {
    var moved, k := submitters[i := submitters[i].(phase := phase)], |submitters| - 1;
    if i < k {
      RefusedAt(submitters[..k], i, phase);
      assert moved[..k] == submitters[..k][i := submitters[i].(phase := phase)];
    } else {
      assert moved[..k] == submitters[..k];
    }
  }

  /** Queue bytes depend on the sizes only. */
  lemma {:induction false} QueuedSame(queue: seq<nat>, a: seq<Submitter>, b: seq<Submitter>)
    requires Below(queue, |a|) && |a| <= |b| && forall i :: 0 <= i < |a| ==> a[i].bytes == b[i].bytes
    ensures QueuedBytes(queue, a) == QueuedBytes(queue, b)
  {
    if |queue| > 0 {
      QueuedSame(queue[1..], a, b);
    }
  }

  lemma {:induction false} QueuedSnoc(queue: seq<nat>, i: nat, submitters: seq<Submitter>)
    requires i < |submitters| && Below(queue, |submitters|)
    ensures QueuedBytes(queue + [i], submitters) == QueuedBytes(queue, submitters) + submitters[i].bytes
  {
    if |queue| == 0 {
      assert queue + [i] == [i];
      assert QueuedBytes([i], submitters) == submitters[i].bytes + QueuedBytes([i][1..], submitters);
    } else {
      QueuedSnoc(queue[1..], i, submitters);
      assert (queue + [i])[1..] == queue[1..] + [i];
    }
  }

  // ---------------------------------------------------------------- each step

  lemma MoveKeepsBytes(s: State, i: nat, phase: Phase)
    requires Named(s) && i < |s.submitters|
    ensures var t := s.(submitters := To(s, i, phase));
            && Named(t) && QueuedBytes(t.queue, t.submitters) == QueuedBytes(s.queue, s.submitters)
            && InFlight(t) == InFlight(s)
                 - (if Holds(s.submitters[i].phase) then s.submitters[i].bytes else 0)
                     + (if Holds(phase) then s.submitters[i].bytes else 0)
  {
    HeldAt(s.submitters, i, phase);
    QueuedSame(s.queue, s.submitters, To(s, i, phase));
  }

  /** Phases other than `Trying` add no obligation. */
  lemma MoveKeepsTrying(s: State, i: nat, phase: Phase)
    requires Balanced(s) && i < |s.submitters| && (phase.Trying? ==> phase.seen + s.submitters[i].bytes <= s.limit)
    ensures forall x :: x in To(s, i, phase) && x.phase.Trying? ==> x.phase.seen + x.bytes <= s.limit
  {
    var moved := To(s, i, phase);
    forall x | x in moved && x.phase.Trying? ensures x.phase.seen + x.bytes <= s.limit {
      var k :| 0 <= k < |moved| && moved[k] == x;
      if k != i { assert s.submitters[k] in s.submitters; }
    }
  }

  lemma MoveBalances(s: State, i: nat, phase: Phase)
    requires Balanced(s) && i < |s.submitters|
    requires Holds(phase) == Holds(s.submitters[i].phase)
    requires phase.Trying? ==> phase.seen + s.submitters[i].bytes <= s.limit
    ensures Balanced(s.(submitters := To(s, i, phase)))
  {
    MoveKeepsBytes(s, i, phase);
    MoveKeepsTrying(s, i, phase);
  }

  lemma CallBalances(s: State, encoded: nat)
    requires Balanced(s)
    ensures Balanced(Next(s, Call(encoded)))
  {
    var t := Next(s, Call(encoded));
    assert t.submitters[..|t.submitters| - 1] == s.submitters;
    QueuedSame(s.queue, s.submitters, t.submitters);
  }

  lemma SwapBalances(s: State, i: nat)
    requires Balanced(s) && i < |s.submitters| && s.submitters[i].phase.Trying?
    ensures Balanced(Next(s, Swap(i)))
  {
    assert s.submitters[i] in s.submitters;
    if s.counter != s.submitters[i].phase.seen {
      MoveBalances(s, i, Start);
    } else {
      MoveKeepsBytes(s, i, Holding);
      MoveKeepsTrying(s, i, Holding);
    }
  }

  lemma SendBalances(s: State, i: nat)
    requires Balanced(s) && At(s, i, Holding)
    ensures Balanced(Next(s, Send(i)))
  {
    if |s.queue| >= s.capacity {
      MoveBalances(s, i, Refunding);
    } else {
      MoveKeepsBytes(s, i, Returned(true));
      MoveKeepsTrying(s, i, Returned(true));
      QueuedSnoc(s.queue, i, To(s, i, Returned(true)));
    }
  }

  lemma RefundBalances(s: State, i: nat)
    requires Balanced(s) && At(s, i, Refunding)
    ensures Balanced(Next(s, Refund(i)))
  {
    MoveKeepsBytes(s, i, Refusing);
    MoveKeepsTrying(s, i, Refusing);
  }

  lemma ConsumerBalances(s: State, step: Step)
    requires Balanced(s) && (step.Receive? || step.Release?)
    ensures Balanced(Next(s, step))
  {
  }

  lemma StepBalances(s: State, step: Step)
    requires Balanced(s)
    ensures Balanced(Next(s, step))
  {
    hide Balanced, HeldBytes, QueuedBytes;
    BalancedNamed(s);
    match step
    case Call(encoded) => CallBalances(s, encoded);
    case Load(i) =>
      if At(s, i, Start) {
        if s.counter + s.submitters[i].bytes > s.limit {
          MoveBalances(s, i, Refusing);
        } else {
          MoveBalances(s, i, Trying(s.counter));
        }
      }
    case Swap(i) => if i < |s.submitters| && s.submitters[i].phase.Trying? { SwapBalances(s, i); }
    case Send(i) => if At(s, i, Holding) { SendBalances(s, i); }
    case Refund(i) => if At(s, i, Refunding) { RefundBalances(s, i); }
    case CountDrop(i) => if At(s, i, Refusing) { DropBalances(s, i); }
    case Receive => ConsumerBalances(s, step);
    case Release => ConsumerBalances(s, step);
  }

  lemma BalancedNamed(s: State)
    requires Balanced(s)
    ensures Named(s)
  {
  }

  lemma DropBalances(s: State, i: nat)
    requires Balanced(s) && At(s, i, Refusing)
    ensures Balanced(Next(s, CountDrop(i)))
  {
    MoveBalances(s, i, Returned(false));
  }

  // ----------------------------------------------------------- accepted items

  lemma MoveAccounts(s: State, i: nat, phase: Phase)
    requires Accounted(s) && i < |s.submitters| && !phase.Returned? && !s.submitters[i].phase.Returned?
    ensures Accounted(s.(submitters := To(s, i, phase)))
  {
    RefusedAt(s.submitters, i, phase);
  }

  lemma SendAccounts(s: State, i: nat)
    requires Named(s) && Accounted(s) && At(s, i, Holding)
    ensures Accounted(Next(s, Send(i)))
  {
    if |s.queue| >= s.capacity {
      MoveAccounts(s, i, Refunding);
    } else {
      var t := Next(s, Send(i));
      RefusedAt(s.submitters, i, Returned(true));
      assert Line(t) == Line(s) + [i];
      assert i !in s.accepted;
      forall k | 0 <= k < |s.accepted| ensures s.accepted[k] != i { assert s.accepted[k] in s.accepted; }
    }
  }

  lemma DropAccounts(s: State, i: nat)
    requires Named(s) && Accounted(s) && At(s, i, Refusing)
    ensures Accounted(Next(s, CountDrop(i)))
  {
    RefusedAt(s.submitters, i, Returned(false));
  }

  lemma CallAccounts(s: State, encoded: nat)
    requires Named(s) && Accounted(s)
    ensures Accounted(Next(s, Call(encoded)))
  {
    var t := Next(s, Call(encoded));
    assert t.submitters[..|t.submitters| - 1] == s.submitters;
  }

  lemma ConsumerAccounts(s: State, step: Step)
    requires Named(s) && Accounted(s) && (step.Receive? || step.Release?)
    ensures Accounted(Next(s, step))
  {
    assert Line(Next(s, step)) == Line(s);
  }

  lemma StepAccounts(s: State, step: Step)
    requires Named(s) && Accounted(s)
    ensures Accounted(Next(s, step))
  {
    hide Accounted, Refused, Named;
    match step
    case Call(encoded) => CallAccounts(s, encoded);
    case Load(i) =>
      if At(s, i, Start) {
        MoveAccounts(s, i, Refusing);
        MoveAccounts(s, i, Trying(s.counter));
      }
    case Swap(i) =>
      if i < |s.submitters| && s.submitters[i].phase.Trying? {
        MoveAccounts(s, i, Start);
        SwapAccounts(s, i);
      }
    case Send(i) => if At(s, i, Holding) { SendAccounts(s, i); }
    case Refund(i) => if At(s, i, Refunding) { RefundAccounts(s, i); }
    case CountDrop(i) => if At(s, i, Refusing) { DropAccounts(s, i); }
    case Receive => ConsumerAccounts(s, step);
    case Release => ConsumerAccounts(s, step);
  }

  lemma SwapAccounts(s: State, i: nat)
    requires Accounted(s) && i < |s.submitters| && s.submitters[i].phase.Trying?
    ensures Accounted(s.(counter := s.counter + s.submitters[i].bytes, submitters := To(s, i, Holding)))
  {
    MoveAccounts(s, i, Holding);
  }

  lemma RefundAccounts(s: State, i: nat)
    requires Accounted(s) && At(s, i, Refunding)
    ensures Accounted(s.(counter := s.counter - s.submitters[i].bytes, submitters := To(s, i, Refusing)))
  {
    MoveAccounts(s, i, Refusing);
  }

  // -------------------------------------------------------------------- runs

  function Empty(limit: nat, capacity: nat): State {
    State(0, limit, capacity, [], None, 0, [], [], [])
  }

  function Run(limit: nat, capacity: nat, steps: seq<Step>): State {
    if |steps| == 0 then Empty(limit, capacity)
    else Next(Run(limit, capacity, steps[..|steps| - 1]), steps[|steps| - 1])
  }

  /**
   However the calls, sends, refunds and receives interleave, the counter is
   the queued plus the in-flight bytes and within the limit, and every call is
   enqueued once or counted as dropped once, in order.
   */
  lemma {:induction false} QueueAlwaysBalanced(limit: nat, capacity: nat, steps: seq<Step>)
    ensures Balanced(Run(limit, capacity, steps)) && Accounted(Run(limit, capacity, steps))
  {
    hide Balanced, Accounted, Next, Named;
    if |steps| > 0 {
      var r := Run(limit, capacity, steps[..|steps| - 1]);
      QueueAlwaysBalanced(limit, capacity, steps[..|steps| - 1]);
      BalancedNamed(r);
      StepBalances(r, steps[|steps| - 1]);
      StepAccounts(r, steps[|steps| - 1]);
    } else {
      IdleHolds(limit, capacity);
    }
  }

  lemma IdleHolds(limit: nat, capacity: nat)
    ensures Balanced(Run(limit, capacity, [])) && Accounted(Run(limit, capacity, []))
  {
  }

  predicate Quiet(s: State) {
    s.queue == [] && s.consumer.None? && forall x :: x in s.submitters ==> x.phase.Returned?
  }

  lemma {:induction false} AllReturned(submitters: seq<Submitter>, accepted: set<nat>)
    requires forall x :: x in submitters ==> x.phase.Returned?
    requires forall i: nat :: i in accepted <==> i < |submitters| && submitters[i].phase == Returned(true)
    ensures HeldBytes(submitters) == 0 && Refused(submitters) + |accepted| == |submitters|
  {
    if |submitters| == 0 {
      assert accepted == {};
    } else {
      var k := |submitters| - 1;
      assert submitters[k] in submitters;
      AllReturned(submitters[..k], accepted - {k});
    }
  }

  function Items(line: seq<nat>): set<nat> {
    set i | i in line
  }

  lemma {:induction false} DistinctSize(line: seq<nat>)
    requires Distinct(line)
    ensures |Items(line)| == |line|
  {
    if |line| > 0 {
      var k := |line| - 1;
      forall j | 0 <= j < k ensures line[..k][j] != line[k] { assert line[j] != line[k]; }
      assert line[k] !in line[..k];
      DistinctSize(line[..k]);
      assert Items(line) == Items(line[..k]) + {line[k]};
    }
  }

  /** Once everything has come to rest no byte is leaked and every call is accounted for. */
  lemma QuietIsConserved(limit: nat, capacity: nat, steps: seq<Step>)
    ensures var s := Run(limit, capacity, steps);
            Quiet(s) ==> s.counter == 0 && |s.handled| + s.drops == |s.submitters|
  {
    hide Run;
    var s := Run(limit, capacity, steps);
    QueueAlwaysBalanced(limit, capacity, steps);
    if Quiet(s) { RestIsConserved(s); }
  }

  lemma RestIsConserved(s: State)
    requires Balanced(s) && Accounted(s) && Quiet(s)
    ensures s.counter == 0 && |s.handled| + s.drops == |s.submitters|
  {
    AllReturned(s.submitters, Items(s.accepted));
    DistinctSize(s.accepted);
    assert s.handled == s.accepted;
  }
}
