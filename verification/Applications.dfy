/**
 Application identities and how evidence about one session is merged.
 */
module Applications {
  import opened Wrappers

  datatype Source = UnknownSource | Sensor | PortHeuristic

  datatype Confidence = UnknownConfidence | Low | Medium | High | Verified

  datatype App = App(
    name: string, source: Source, confidence: Confidence, first: Option<int>, last: Option<int>, revision: nat,
    conflicted: bool)

  const UNKNOWN: App := App("UNKNOWN", UnknownSource, UnknownConfidence, None, None, 0, false)

  function Rank(c: Confidence): nat {
    match c
    case Verified => 5
    case High => 4
    case Medium => 3
    case Low => 2
    case UnknownConfidence => 1
  }

  /** `NormalizeZero`, for names; sources and confidences are never blank here. */
  function Named(a: App): App {
    if a.name == "" then a.(name := "UNKNOWN") else a
  }

  predicate IsUnknown(a: App) {
    a.name == "" || a.name == "UNKNOWN"
  }

  /** `applicationObservedTime` */
  function ObservedTime(a: App): Option<int> {
    if a.last.Some? then a.last else a.first
  }

  function TimeOrder(previous: App, next: App): int {
    var p, n := ObservedTime(previous), ObservedTime(next);
    if p.Some? && n.Some? then (if n.value > p.value then 1 else if n.value < p.value then -1 else 0)
    else if n.Some? then 1 else 0
  }

  function Earlier(a: Option<int>, b: Option<int>): Option<int> {
    if a.None? then b else if b.None? then a else Some(if b.value < a.value then b.value else a.value)
  }

  function Later(a: Option<int>, b: Option<int>): Option<int> {
    if a.None? then b else if b.None? then a else Some(if b.value > a.value then b.value else a.value)
  }

  /** Whether the new evidence replaces the established identity. */
  predicate Replaces(previous: App, next: App) {
    if previous.name == next.name then Rank(next.confidence) > Rank(previous.confidence)
    else
      && Rank(next.confidence) >= Rank(previous.confidence)
      && (TimeOrder(previous, next) > 0 || Rank(next.confidence) > Rank(previous.confidence))
  }

  /** Whether the new evidence only contradicts it. */
  predicate Contradicts(previous: App, next: App) {
    previous.name != next.name && TimeOrder(previous, next) == 0 && Rank(next.confidence) == Rank(previous.confidence)
  }

  function Conflict(previous: App, next: App): bool {
    if Contradicts(previous, next) then true
    else if Replaces(previous, next)
      then next.conflicted && !(previous.name != next.name && TimeOrder(previous, next) > 0)
    else previous.conflicted
  }

  /** The merged identity, field by field. */
  function Merge(previous: App, next: App): App {
    var p, n := Named(previous), Named(next);
    if IsUnknown(p) then n.(revision := p.revision + 1)
    else if IsUnknown(n) then p
    else
      var base := if Replaces(p, n) then n else p;
      App(base.name, base.source, base.confidence, Earlier(p.first, n.first), Later(p.last, n.last), p.revision + 1,
          Conflict(p, n))
  }

  /** `MergeApplication`: a local result is chosen, then its times are widened. */
  method MergeApplication(before: App, after: App) returns (result: App)
    ensures result == Merge(before, after)
  {
    var previous, next := Named(before), Named(after);
    if previous.name == "UNKNOWN" { return next.(revision := previous.revision + 1); }
    if next.name == "UNKNOWN" { return previous; }
    result := ChooseIdentity(previous, next);
    result := WidenTimes(result, previous, next);
    result := result.(revision := previous.revision + 1);
  }

  method ChooseIdentity(previous: App, next: App) returns (result: App)
    ensures result == (if Replaces(previous, next) then next else previous).(conflicted := Conflict(previous, next))
  {
    result := previous;
    var timeOrder := 0;
    var previousTime, nextTime := ObservedTime(previous), ObservedTime(next);
    if previousTime.Some? && nextTime.Some? {
      if nextTime.value > previousTime.value {
        timeOrder := 1;
      } else if nextTime.value < previousTime.value {
        timeOrder := -1;
      }
    } else if nextTime.Some? {
      timeOrder := 1;
    }
    assert timeOrder == TimeOrder(previous, next);
    if previous.name == next.name {
      if Rank(next.confidence) > Rank(previous.confidence) { result := next; }
    } else if Rank(next.confidence) >= Rank(previous.confidence) {
      if timeOrder > 0 {
        result := next.(conflicted := false);
      } else if timeOrder == 0 && Rank(next.confidence) == Rank(previous.confidence) {
        result := result.(conflicted := true);
      } else if Rank(next.confidence) > Rank(previous.confidence) {
        result := next;
      }
    }
  }

  method WidenTimes(chosen: App, previous: App, next: App) returns (result: App)
    requires (chosen.first == previous.first || chosen.first == next.first)
             && (chosen.last == previous.last || chosen.last == next.last)
    ensures result == chosen.(first := Earlier(previous.first, next.first), last := Later(previous.last, next.last))
  {
    result := chosen;
    if previous.first.Some? && (result.first.None? || previous.first.value < result.first.value) {
      result := result.(first := previous.first);
    }
    if next.first.Some? && (result.first.None? || next.first.value < result.first.value) {
      result := result.(first := next.first);
    }
    if previous.last.Some? && (result.last.None? || previous.last.value > result.last.value) {
      result := result.(last := previous.last);
    }
    if next.last.Some? && (result.last.None? || next.last.value > result.last.value) {
      result := result.(last := next.last);
    }
  }

  // ------------------------------------------------------------------- folds

  /** Merge evidence in the order it arrives. */
  function MergeAll(start: App, evidence: seq<App>): App {
    if |evidence| == 0 then start else Merge(MergeAll(start, evidence[..|evidence| - 1]), evidence[|evidence| - 1])
  }

  function EarliestSeen(evidence: seq<App>): Option<int> {
    if |evidence| == 0 then None else Earlier(EarliestSeen(evidence[..|evidence| - 1]), evidence[|evidence| - 1].first)
  }

  function LatestSeen(evidence: seq<App>): Option<int> {
    if |evidence| == 0 then None else Later(LatestSeen(evidence[..|evidence| - 1]), evidence[|evidence| - 1].last)
  }

  predicate AllNamed(evidence: seq<App>) {
    forall i :: 0 <= i < |evidence| ==> !IsUnknown(evidence[i])
  }

  /** Over any evidence the first and last times are the extremes, and confidence never falls. */
  lemma {:induction false} MergeAllMeans(evidence: seq<App>)
    requires AllNamed(evidence)
    ensures MergeAll(UNKNOWN, evidence).first == EarliestSeen(evidence)
            && MergeAll(UNKNOWN, evidence).last == LatestSeen(evidence)
    ensures |evidence| > 0 ==> !IsUnknown(MergeAll(UNKNOWN, evidence))
    ensures MergeAll(UNKNOWN, evidence).revision == |evidence|
    ensures forall k :: 0 <= k <= |evidence| ==>
            Rank(MergeAll(UNKNOWN, evidence[..k]).confidence) <= Rank(MergeAll(UNKNOWN, evidence).confidence)
  {
    if |evidence| == 0 {
      assert evidence[..0] == evidence;
    } else {
      var init, last := evidence[..|evidence| - 1], evidence[|evidence| - 1];
      MergeAllMeans(init);
      var before, after := MergeAll(UNKNOWN, init), MergeAll(UNKNOWN, evidence);
      MergeNeverFalls(before, last);
      forall k | 0 <= k <= |evidence|
        ensures Rank(MergeAll(UNKNOWN, evidence[..k]).confidence) <= Rank(after.confidence)
      {
        if k < |evidence| { assert evidence[..k] == init[..k]; } else { assert evidence[..k] == evidence; }
      }
    }
  }

  lemma MergeNeverFalls(previous: App, next: App)
    requires IsUnknown(previous) ==> previous.confidence == UnknownConfidence
    ensures Rank(Merge(previous, next).confidence) >= Rank(previous.confidence)
    ensures !IsUnknown(next) && Merge(previous, next).name == next.name ==>
            Rank(Merge(previous, next).confidence) >= Rank(next.confidence)
  {
  }

  /** What the extremes are: bounds of every time seen, and times that were seen. */
  lemma {:induction false} ExtremesAreBounds(evidence: seq<App>, i: nat)
    requires i < |evidence|
    ensures evidence[i].first.Some? ==>
            EarliestSeen(evidence).Some? && EarliestSeen(evidence).value <= evidence[i].first.value
    ensures evidence[i].last.Some? ==>
            LatestSeen(evidence).Some? && LatestSeen(evidence).value >= evidence[i].last.value
  {
    if i < |evidence| - 1 { ExtremesAreBounds(evidence[..|evidence| - 1], i); }
  }

  lemma {:induction false} ExtremesAreSeen(evidence: seq<App>)
    ensures EarliestSeen(evidence).Some? ==>
            exists i :: 0 <= i < |evidence| && evidence[i].first == EarliestSeen(evidence)
    ensures LatestSeen(evidence).Some? ==> exists i :: 0 <= i < |evidence| && evidence[i].last == LatestSeen(evidence)
  {
    if |evidence| > 0 {
      var init, k := evidence[..|evidence| - 1], |evidence| - 1;
      ExtremesAreSeen(init);
      if EarliestSeen(evidence).Some? && evidence[k].first != EarliestSeen(evidence) {
        var i :| 0 <= i < |init| && init[i].first == EarliestSeen(init);
        assert evidence[i].first == EarliestSeen(evidence);
      }
      if LatestSeen(evidence).Some? && evidence[k].last != LatestSeen(evidence) {
        var i :| 0 <= i < |init| && init[i].last == LatestSeen(init);
        assert evidence[i].last == LatestSeen(evidence);
      }
    }
  }
}
