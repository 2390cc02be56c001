/** Owed reply time counted once, against a verified clock
    (scripts/analyze-latency.py, 748-868, 1055-1122 and 1201-1204). */
module OwedTime {
  import opened Wrappers

  /** A pair ordered the way Python orders tuples; an interval holds `start <= t < end`. */
  datatype Interval = Interval(start: int, end: int)

  predicate Leq(a: Interval, b: Interval) {
    a.start < b.start || (a.start == b.start && a.end <= b.end)
  }

  ghost predicate IsSorted(s: seq<Interval>) {
    forall i, j :: 0 <= i < j < |s| ==> Leq(s[i], s[j])
  }

  function Insert(x: Interval, s: seq<Interval>): (r: seq<Interval>)
    requires IsSorted(s)
    ensures IsSorted(r) && multiset(r) == multiset(s) + multiset{x}
  {
    if s == [] then [x]
    else
      assert s == [s[0]] + s[1..];
      if Leq(x, s[0]) then [x] + s
      else
        var rest := Insert(x, s[1..]);
        HeadStaysFirst(x, s, rest);
        [s[0]] + rest
  }

  lemma HeadStaysFirst(x: Interval, s: seq<Interval>, rest: seq<Interval>)
    requires s != [] && IsSorted(s) && Leq(s[0], x)
    requires IsSorted(rest) && multiset(rest) == multiset(s[1..]) + multiset{x}
    ensures IsSorted([s[0]] + rest)
  {
    forall j | 0 <= j < |rest|
      ensures Leq(s[0], rest[j])
    {
      assert rest[j] in multiset(rest);
      if rest[j] != x {
        assert rest[j] in s[1..];
        var k :| 0 <= k < |s[1..]| && s[1..][k] == rest[j];
        assert s[k + 1] == rest[j];
      }
    }
  }

  function Sorted(s: seq<Interval>): (r: seq<Interval>)
    ensures IsSorted(r) && multiset(r) == multiset(s)
  {
    if s == [] then []
    else
      assert s == s[..|s| - 1] + [s[|s| - 1]];
      Insert(s[|s| - 1], Sorted(s[..|s| - 1]))
  }

  // ----- the union, as the instants it holds -----

  predicate Holds(i: Interval, t: int) {
    i.start <= t < i.end
  }

  ghost function Instants(i: Interval): set<int> {
    set t: int | i.start <= t < i.end && Holds(i, t)
  }

  ghost predicate Covers(s: seq<Interval>, t: int) {
    exists k :: 0 <= k < |s| && Holds(s[k], t)
  }

  ghost function Union(s: seq<Interval>): (u: set<int>)
    ensures forall t :: t in u <==> Covers(s, t)
  {
    if s == [] then {}
    else
      var front, last := s[..|s| - 1], s[|s| - 1];
      assert forall t :: Covers(s, t) <==> Covers(front, t) || t in Instants(last) by {
        forall t
          ensures Covers(s, t) <==> Covers(front, t) || t in Instants(last)
        {
          if Covers(front, t) {
            var k :| 0 <= k < |front| && Holds(front[k], t);
            assert s[k] == front[k];
          }
        }
      }
      Union(front) + Instants(last)
  }

  lemma {:induction false} InstantsCount(i: Interval)
    requires i.start <= i.end
    ensures |Instants(i)| == i.end - i.start
    decreases i.end - i.start
  {
    if i.start < i.end {
      var shorter := Interval(i.start, i.end - 1);
      InstantsCount(shorter);
      assert Instants(i) == Instants(shorter) + {i.end - 1};
    } else {
      assert Instants(i) == {};
    }
  }

  lemma SubsetCount(a: set<int>, b: set<int>)
    requires a <= b
    ensures |a| <= |b|
  {
    assert b == a + (b - a);
    DisjointCount(a, b - a);
  }

  lemma DisjointCount(a: set<int>, b: set<int>)
    requires a !! b
    ensures |a + b| == |a| + |b|
  {
  }

  /** The union does not depend on the order of the list. */
  lemma UnionOfSame(s: seq<Interval>, s': seq<Interval>)
    requires multiset(s) == multiset(s')
    ensures Union(s) == Union(s')
  {
    forall t
      ensures Covers(s, t) <==> Covers(s', t)
    {
      if Covers(s, t) {
        var k :| 0 <= k < |s| && Holds(s[k], t);
        assert s[k] in multiset(s');
        var k' :| 0 <= k' < |s'| && s'[k'] == s[k];
      }
      if Covers(s', t) {
        var k :| 0 <= k < |s'| && Holds(s'[k], t);
        assert s'[k] in multiset(s);
        var k' :| 0 <= k' < |s| && s[k'] == s'[k];
      }
    }
  }

  ghost predicate Forward(s: seq<Interval>) {
    forall k :: 0 <= k < |s| ==> s[k].start <= s[k].end
  }

  /** Some interval starts earlier and reaches up to the start of `i`. */
  ghost predicate Sheltered(s: seq<Interval>, i: Interval) {
    exists k :: 0 <= k < |s| && s[k].start < i.start <= s[k].end
  }

  /** No interval runs backward, unless an earlier one shelters it. */
  ghost predicate Harmless(s: seq<Interval>) {
    forall k :: 0 <= k < |s| ==> s[k].start <= s[k].end || Sheltered(s, s[k])
  }

  lemma ForwardIsHarmless(s: seq<Interval>)
    requires Forward(s)
    ensures Harmless(s)
  {
  }

  lemma HarmlessInAnyOrder(s: seq<Interval>, s': seq<Interval>)
    requires multiset(s) == multiset(s') && Harmless(s)
    ensures Harmless(s')
  {
    forall k | 0 <= k < |s'| && s'[k].end < s'[k].start
      ensures Sheltered(s', s'[k])
    {
      assert s'[k] in multiset(s);
      var i :| 0 <= i < |s| && s[i] == s'[k];
      assert Sheltered(s, s[i]);
      var j :| 0 <= j < |s| && s[j].start < s[i].start <= s[j].end;
      assert s[j] in multiset(s');
      var j' :| 0 <= j' < |s'| && s'[j'] == s[j];
    }
  }

  ghost predicate StartsBy(s: seq<Interval>, x: int) {
    forall k :: 0 <= k < |s| ==> s[k].start <= x
  }

  ghost predicate ReachedAt(s: seq<Interval>, x: int) {
    exists k :: 0 <= k < |s| && x <= s[k].end
  }

  /** What the loop keeps as `reach`: from the last start on it tells which points the intervals reach. */
  ghost predicate ReachIs(s: seq<Interval>, reach: Option<int>) {
    forall x: int :: StartsBy(s, x) ==> (ReachedAt(s, x) <==> Within(reach, x))
  }

  predicate Within(reach: Option<int>, x: int) {
    reach.Some? && x <= reach.value
  }

  function NextReach(reach: Option<int>, i: Interval): Option<int> {
    if !Within(reach, i.start) || i.end > reach.value then Some(i.end) else reach
  }

  lemma StartsBySum(s: seq<Interval>, i: Interval, x: int)
    ensures StartsBy(s + [i], x) <==> StartsBy(s, x) && i.start <= x
    ensures ReachedAt(s + [i], x) <==> ReachedAt(s, x) || x <= i.end
  {
    var more := s + [i];
    assert more[|s|] == i && forall k :: 0 <= k < |s| ==> more[k] == s[k];
    if StartsBy(more, x) {
      assert forall k :: 0 <= k < |s| ==> more[k].start <= x;
    }
    if k :| 0 <= k < |s| && x <= s[k].end {
      assert x <= more[k].end;
    }
  }

  lemma ReachedEarlier(s: seq<Interval>, x: int, y: int)
    requires ReachedAt(s, y) && x <= y
    ensures ReachedAt(s, x)
  {
    var k :| 0 <= k < |s| && y <= s[k].end;
    assert x <= s[k].end;
  }

  lemma ReachGrows(s: seq<Interval>, i: Interval, reach: Option<int>)
    requires ReachIs(s, reach) && StartsBy(s, i.start)
    ensures ReachIs(s + [i], NextReach(reach, i))
  {
    forall x: int | StartsBy(s + [i], x)
      ensures ReachedAt(s + [i], x) <==> Within(NextReach(reach, i), x)
    {
      StartsBySum(s, i, x);
      assert ReachedAt(s, x) <==> Within(reach, x);
      assert ReachedAt(s, i.start) <==> Within(reach, i.start);
      if ReachedAt(s, x) {
        ReachedEarlier(s, i.start, x);
      }
    }
  }

  lemma InUnionIsReached(s: seq<Interval>, t: int)
    requires t in Union(s)
    ensures ReachedAt(s, t + 1)
  {
    var k :| 0 <= k < |s| && Holds(s[k], t);
    assert t + 1 <= s[k].end;
  }

  lemma NotReachedLater(s: seq<Interval>, x: int)
    requires !ReachedAt(s, x)
    ensures forall y :: x <= y ==> !ReachedAt(s, y)
  {
    assert forall k :: 0 <= k < |s| ==> s[k].end < x;
  }

  /** Past everything reached there are only new instants. */
  lemma BeyondReach(s: seq<Interval>, i: Interval)
    requires i.start < i.end ==> !ReachedAt(s, i.start + 1)
    ensures Union(s) !! Instants(i)
  {
    if i.start < i.end {
      NotReachedLater(s, i.start + 1);
    }
    forall t | t in Union(s)
      ensures t !in Instants(i)
    {
      InUnionIsReached(s, t);
    }
  }

  /** Up to the reach there are none. */
  lemma WithinReach(s: seq<Interval>, from: int, reach: int, t: int)
    requires StartsBy(s, from) && ReachedAt(s, reach) && from <= t < reach
    ensures t in Union(s)
  {
    var k :| 0 <= k < |s| && reach <= s[k].end;
    assert Holds(s[k], t);
    assert Covers(s, t);
  }

  /** The instants a sheltered or overlapping interval adds. */
  function Beyond(reach: int, i: Interval): Interval {
    Interval(reach, if i.end > reach then i.end else reach)
  }

  lemma OnlyBeyondReach(s: seq<Interval>, i: Interval, reach: int)
    requires ReachIs(s, Some(reach)) && StartsBy(s, i.start) && i.start <= reach
    ensures Union(s) + Instants(i) == Union(s) + Instants(Beyond(reach, i))
    ensures Union(s) !! Instants(Beyond(reach, i))
  {
    assert StartsBy(s, reach) && StartsBy(s, reach + 1);
    assert ReachedAt(s, reach) && !ReachedAt(s, reach + 1);
    BeyondReach(s, Beyond(reach, i));
    forall t
      ensures t in Union(s) + Instants(i) <==> t in Union(s) + Instants(Beyond(reach, i))
    {
      if i.start <= t < reach {
        WithinReach(s, i.start, reach, t);
      }
      assert t in Instants(i) <==> i.start <= t < i.end;
      assert t in Instants(Beyond(reach, i)) <==> reach <= t < i.end;
    }
  }

  lemma UnionOfSum(s: seq<Interval>, i: Interval)
    ensures Union(s + [i]) == Union(s) + Instants(i)
  {
    assert (s + [i])[..|s|] == s;
  }

  lemma InstantsOfAny(i: Interval)
    ensures |Instants(i)| == if i.start <= i.end then i.end - i.start else 0
  {
    if i.start <= i.end {
      InstantsCount(i);
    } else {
      assert Instants(i) == {};
    }
  }

  /** What one more interval, starting no earlier than the others, adds to the union. */
  function Added(reach: Option<int>, i: Interval): nat {
    if !Within(reach, i.start) then (if i.start <= i.end then i.end - i.start else 0)
    else if i.end > reach.value then i.end - reach.value else 0
  }

  lemma UnionGrows(s: seq<Interval>, i: Interval, reach: Option<int>)
    requires ReachIs(s, reach) && StartsBy(s, i.start)
    ensures |Union(s + [i])| == |Union(s)| + Added(reach, i)
  {
    UnionOfSum(s, i);
    if Within(reach, i.start) {
      OnlyBeyondReach(s, i, reach.value);
      InstantsOfAny(Beyond(reach.value, i));
      DisjointCount(Union(s), Instants(Beyond(reach.value, i)));
    } else {
      assert !ReachedAt(s, i.start);
      if ReachedAt(s, i.start + 1) {
        ReachedEarlier(s, i.start, i.start + 1);
      }
      BeyondReach(s, i);
      InstantsOfAny(i);
      DisjointCount(Union(s), Instants(i));
    }
  }

  /** A backward interval is sheltered exactly when it starts within the reach of those before it. */
  lemma HarmlessGrows(s: seq<Interval>, i: Interval, reach: Option<int>)
    requires ReachIs(s, reach) && forall k :: 0 <= k < |s| ==> Leq(s[k], i)
    ensures Harmless(s + [i]) <==> Harmless(s) && (i.start <= i.end || Within(reach, i.start))
  {
    var more := s + [i];
    assert more[|s|] == i && forall k :: 0 <= k < |s| ==> more[k] == s[k];
    forall x: Interval | x == i || x in s
      ensures Sheltered(more, x) <==> Sheltered(s, x)
    {
      if k :| 0 <= k < |s| && s[k].start < x.start <= s[k].end {
        assert more[k] == s[k];
      }
    }
    assert StartsBy(s, i.start);
    assert i.end < i.start ==> (Sheltered(s, i) <==> ReachedAt(s, i.start));
    assert Harmless(more) ==> forall k :: 0 <= k < |s| ==> more[k].start <= more[k].end || Sheltered(more, more[k]);
  }

  /** The accumulators after the intervals of `s`. */
  ghost predicate Progress(total: int, reach: Option<int>, s: seq<Interval>) {
    && ReachIs(s, reach)
    && total <= |Union(s)| && (total == |Union(s)| <==> Harmless(s))
  }

  /** `merged_length`, for any list in any order, backward intervals included: never more than the size of
      the union, and equal to it exactly when no backward interval stands alone. */
  method MergedLength(intervals: seq<Interval>) returns (total: int)
    ensures total <= |Union(intervals)|
    ensures total == |Union(intervals)| <==> Harmless(intervals)
  {
    var sorted := Sorted(intervals);
    UnionOfSame(intervals, sorted);
    if Harmless(intervals) {
      HarmlessInAnyOrder(intervals, sorted);
    } else if Harmless(sorted) {
      HarmlessInAnyOrder(sorted, intervals);
    }
    total := MergeSorted(sorted);
  }

  method MergeSorted(sorted: seq<Interval>) returns (total: int)
    requires IsSorted(sorted)
    ensures total <= |Union(sorted)| && (total == |Union(sorted)| <==> Harmless(sorted))
  {
    total := 0;
    var reach: Option<int> := None;
    for k := 0 to |sorted|
      invariant Progress(total, reach, sorted[..k])
    {
      total, reach := Absorb(total, reach, sorted[k], sorted, k);
    }
    assert sorted[..|sorted|] == sorted;
  }

  lemma InOrder(s: seq<Interval>, k: nat)
    requires IsSorted(s) && k < |s|
    ensures forall j :: 0 <= j < |s[..k]| ==> Leq(s[..k][j], s[k])
    ensures StartsBy(s[..k], s[k].start)
  {
    forall j | 0 <= j < k
      ensures Leq(s[..k][j], s[k])
    {
      assert Leq(s[j], s[k]);
    }
  }

  /** One pass of the loop: the next interval in order. */
  method Absorb(total: int, reach: Option<int>, i: Interval, ghost sorted: seq<Interval>, ghost k: nat)
    returns (total': int, reach': Option<int>)
    requires IsSorted(sorted) && k < |sorted| && i == sorted[k]
    requires Progress(total, reach, sorted[..k])
    ensures Progress(total', reach', sorted[..k + 1])
  {
    ghost var s := sorted[..k];
    InOrder(sorted, k);
    assert sorted[..k + 1] == s + [i];
    UnionGrows(s, i, reach);
    ReachGrows(s, i, reach);
    HarmlessGrows(s, i, reach);
    total', reach' := total, reach;
    if reach.None? || i.start > reach.value {
      total' := total + (i.end - i.start);
      reach' := Some(i.end);
    } else if i.end > reach.value {
      total' := total + (i.end - reach.value);
      reach' := Some(i.end);
    }
  }

  /** The smallest input on which the sum is not the union: one backward interval. */
  lemma BackwardStandsAlone()
    ensures !Harmless([Interval(1, 0)]) && Union([Interval(1, 0)]) == {}
  {
    var s := [Interval(1, 0)];
    assert s[0].end < s[0].start && !Sheltered(s, s[0]);
  }

  function Summed(s: seq<Interval>): int {
    if s == [] then 0 else Summed(s[..|s| - 1]) + (s[|s| - 1].end - s[|s| - 1].start)
  }

  /** The sum is additive over lists and a length on each interval, which fixes it. */
  lemma {:induction false} SummedAddsUp(a: seq<Interval>, b: seq<Interval>)
    ensures Summed(a + b) == Summed(a) + Summed(b)
    ensures |a| == 1 ==> Summed(a) == a[0].end - a[0].start
    decreases |b|
  {
    if b == [] {
      assert a + b == a;
    } else {
      assert (a + b)[..|a + b| - 1] == a + b[..|b| - 1];
      SummedAddsUp(a, b[..|b| - 1]);
    }
    if |a| == 1 {
      assert a[..0] == [];
    }
  }

  /** Counting overlaps once never gives more than the summed gaps. */
  lemma {:induction false} UnionAtMostSum(s: seq<Interval>)
    requires Forward(s)
    ensures |Union(s)| <= Summed(s)
    decreases |s|
  {
    if s != [] {
      var front, last := s[..|s| - 1], s[|s| - 1];
      UnionAtMostSum(front);
      InstantsCount(last);
      var extra := Instants(last) - Union(front);
      DisjointCount(Union(front), extra);
      SubsetCount(extra, Instants(last));
      assert Union(s) == Union(front) + extra;
    }
  }

  /** ... nor more than a clock that runs from zero past every end. */
  lemma UnionWithinExposure(s: seq<Interval>, exposure: nat)
    requires forall k :: 0 <= k < |s| ==> 0 <= s[k].start && s[k].end <= exposure
    ensures |Union(s)| <= exposure
  {
    InstantsCount(Interval(0, exposure));
    assert Union(s) <= Instants(Interval(0, exposure));
    SubsetCount(Union(s), Instants(Interval(0, exposure)));
  }

  // ----- one reply's gap -----

  datatype Outcome = Superseded | Ended | Answered | Unfinished

  /** What one record of a reply carries: the owed start and the clock reading it knows, whether it is
      a successful native capture, its total since its own origin, and its terminal outcome. */
  datatype Record = Record(owedStart: Option<int>, captured: bool, at: Option<int>, serverTotal: Option<int>,
                           outcome: Option<Outcome>)

  datatype State = Captured | Stopped(outcome: Outcome) | Uncaptured | Missing
  datatype Unknown = UnknownStart | UnknownEnd | ClockBackwards

  datatype Source = CaptureRecord | OriginOffset | TerminalRecord | RunEnd

  datatype Gap = Gap(state: State, start: Option<int>, end: Option<int>, source: Option<Source>, censored: bool,
                     unknown: Option<Unknown>, length: Option<int>)

  function Lesser(a: Option<int>, b: Option<int>): Option<int> {
    if a.None? then b else if b.None? || a.value <= b.value then a else b
  }

  function Greater(a: Option<int>, b: Option<int>): Option<int> {
    if a.None? then b else if b.None? || a.value >= b.value then a else b
  }

  function EarliestStart(events: seq<Record>): Option<int> {
    if events == [] then None else Lesser(EarliestStart(events[..|events| - 1]), events[|events| - 1].owedStart)
  }

  function LatestTerminal(events: seq<Record>, outcome: Outcome): Option<int> {
    if events == [] then None
    else
      var e := events[|events| - 1];
      Greater(LatestTerminal(events[..|events| - 1], outcome), if e.outcome == Some(outcome) then e.at else None)
  }

  function FirstCapture(events: seq<Record>): Option<Record> {
    if events == [] then None
    else if events[0].captured then Some(events[0])
    else FirstCapture(events[1..])
  }

  /** The end a successful capture gives: its own reading, or its origin plus its total. */
  function CaptureEnd(e: Record): Option<int> {
    if e.at.None? && e.owedStart.Some? && e.serverTotal.Some? then Some(e.owedStart.value + e.serverTotal.value)
    else e.at
  }

  function CaptureSource(e: Record): Source {
    if e.at.None? && e.owedStart.Some? && e.serverTotal.Some? then OriginOffset else CaptureRecord
  }

  function OwedGap(events: seq<Record>, outcome: Outcome, runEnd: Option<int>): Gap {
    var start := EarliestStart(events);
    var success := FirstCapture(events);
    var (state, end, source, censored) :=
      if success.Some? then (Captured, CaptureEnd(success.value), CaptureSource(success.value), false)
      else if outcome == Superseded || outcome == Ended then
        (Stopped(outcome), LatestTerminal(events, outcome), TerminalRecord, false)
      else (if outcome == Answered then Uncaptured else Missing, runEnd, RunEnd, true);
    var unknown :=
      if start.None? then Some(UnknownStart)
      else if end.None? then Some(UnknownEnd)
      else if end.value < start.value then Some(ClockBackwards)
      else None;
    Gap(state, start, end, if end.Some? then Some(source) else None, censored, unknown,
        if unknown.None? then Some(end.value - start.value) else None)
  }

  lemma {:induction false} EarliestStartIsLeast(events: seq<Record>)
    ensures EarliestStart(events).None? <==> forall e <- events :: e.owedStart.None?
    ensures EarliestStart(events).Some? ==>
              && (exists e <- events :: e.owedStart == EarliestStart(events))
              && (forall e <- events :: e.owedStart.Some? ==> EarliestStart(events).value <= e.owedStart.value)
    decreases |events|
  {
    if events != [] {
      var front, last := events[..|events| - 1], events[|events| - 1];
      EarliestStartIsLeast(front);
      assert events == front + [last];
      assert last in events;
      if EarliestStart(front).Some? {
        var e :| e in front && e.owedStart == EarliestStart(front);
        assert e in events;
      }
    }
  }

  ghost predicate IsFirstCapture(events: seq<Record>, k: int) {
    0 <= k < |events| && events[k].captured && forall j :: 0 <= j < k ==> !events[j].captured
  }

  lemma {:induction false} FirstCaptureIsFirst(events: seq<Record>)
    ensures FirstCapture(events).None? <==> forall k :: 0 <= k < |events| ==> !events[k].captured
    ensures FirstCapture(events).Some? ==> exists k :: IsFirstCapture(events, k) && FirstCapture(events) == Some(events[k])
    decreases |events|
  {
    if events != [] && !events[0].captured {
      var rest := events[1..];
      FirstCaptureIsFirst(rest);
      if FirstCapture(rest).Some? {
        var k :| IsFirstCapture(rest, k) && FirstCapture(rest) == Some(rest[k]);
        assert forall j :: 0 <= j < |rest| ==> rest[j] == events[j + 1];
        assert IsFirstCapture(events, k + 1);
      } else {
        assert forall j :: 0 < j < |events| ==> events[j] == rest[j - 1];
      }
    } else if events != [] {
      assert IsFirstCapture(events, 0);
    }
  }

  /** `at` is the latest reading among the records that say `outcome`. */
  ghost predicate IsLatestTerminal(events: seq<Record>, outcome: Outcome, at: Option<int>) {
    && (at.None? <==> forall e <- events :: e.outcome == Some(outcome) ==> e.at.None?)
    && (at.Some? ==>
          && (exists e <- events :: e.outcome == Some(outcome) && e.at == at)
          && (forall e <- events :: e.outcome == Some(outcome) && e.at.Some? ==> e.at.value <= at.value))
  }

  lemma {:induction false} LatestTerminalIsLatest(events: seq<Record>, outcome: Outcome)
    ensures IsLatestTerminal(events, outcome, LatestTerminal(events, outcome))
    decreases |events|
  {
    if events != [] {
      var front, last := events[..|events| - 1], events[|events| - 1];
      LatestTerminalIsLatest(front, outcome);
      assert events == front + [last];
      assert last in events;
      if LatestTerminal(front, outcome).Some? {
        var e :| e in front && e.outcome == Some(outcome) && e.at == LatestTerminal(front, outcome);
        assert e in events;
      }
    }
  }

  /** What a successful capture gives: its own reading, else its own origin plus its total, else nothing. */
  ghost predicate CaptureGives(e: Record, end: Option<int>, source: Option<Source>) {
    if e.at.Some? then end == e.at && source == Some(CaptureRecord)
    else if e.owedStart.Some? && e.serverTotal.Some? then
      end == Some(e.owedStart.value + e.serverTotal.value) && source == Some(OriginOffset)
    else end == None && source == None
  }

  /** A gap has a length exactly when both ends are known in order. It starts at the earliest owed start
      and ends at the first capture, or else at the latest terminal record of a stopped reply, or else,
      censored, at the run's end. */
  lemma OwedGapIsSound(events: seq<Record>, outcome: Outcome, runEnd: Option<int>)
    ensures var g := OwedGap(events, outcome, runEnd);
            && (g.unknown.None? <==> g.start.Some? && g.end.Some? && g.start.value <= g.end.value)
            && (g.length == if g.unknown.None? then Some(g.end.value - g.start.value) else None)
            && (g.length.Some? ==> g.length.value >= 0)
            && (g.source.Some? <==> g.end.Some?)
            && (g.source == Some(RunEnd) <==> g.censored && g.end.Some?)
            && (g.source == Some(TerminalRecord) <==> g.state.Stopped? && g.end.Some?)
            && (g.start.None? <==> g.unknown == Some(UnknownStart))
            && (g.start.None? <==> forall e <- events :: e.owedStart.None?)
            && (g.start.Some? ==>
                  (exists e <- events :: e.owedStart == g.start) &&
                  forall e <- events :: e.owedStart.Some? ==> g.start.value <= e.owedStart.value)
            && (g.state == Captured <==> exists k :: IsFirstCapture(events, k))
            && (g.state == Captured ==>
                  exists k :: IsFirstCapture(events, k) && CaptureGives(events[k], g.end, g.source))
            && (g.state.Stopped? ==> g.state.outcome == outcome && IsLatestTerminal(events, outcome, g.end))
            && (g.state.Stopped? <==> g.state != Captured && (outcome == Superseded || outcome == Ended))
            && (g.censored <==> g.state == Uncaptured || g.state == Missing)
            && (g.censored ==> g.end == runEnd && (g.state == Uncaptured <==> outcome == Answered))
  {
    EarliestStartIsLeast(events);
    FirstCaptureIsFirst(events);
    LatestTerminalIsLatest(events, outcome);
  }

  // ----- the clock of one scope -----

  datatype Sample = Sample(number: nat, elapsed: nat, anchor: Option<int>)

  datatype Why = NoClockSamples | ConflictingSamples | ConflictingAnchor | ClockWentBackwards | NoStartSample

  datatype Exposure = Exposed(ms: nat) | Unverified(why: Why)

  /** Elapsed never falls as the sample number grows, so copies of a number agree. */
  ghost predicate Monotone(samples: seq<Sample>) {
    forall a, b :: a in samples && b in samples && a.number <= b.number ==> a.elapsed <= b.elapsed
  }

  ghost predicate OneAnchor(samples: seq<Sample>) {
    forall a, b :: a in samples && b in samples && a.anchor.Some? && b.anchor.Some? ==> a.anchor == b.anchor
  }

  ghost predicate Verified(samples: seq<Sample>) {
    Monotone(samples) && OneAnchor(samples) && exists a :: a in samples && a.number == 0 && a.elapsed == 0
  }

  /** A sample as the pair that sorts by number. */
  function Numbered(a: Sample): Interval {
    Interval(a.number, a.elapsed)
  }

  function NumberedAll(samples: seq<Sample>): (items: seq<Interval>)
    ensures |items| == |samples| && forall k :: 0 <= k < |items| ==> items[k] == Numbered(samples[k])
  {
    seq(|samples|, k requires 0 <= k < |samples| => Numbered(samples[k]))
  }

  /** Why there is no exposure, in the order the checks are made. */
  ghost predicate WhyIs(samples: seq<Sample>, why: Why) {
    match why
    case NoClockSamples => samples == []
    case ConflictingSamples => !CopiesAgree(samples)
    case ConflictingAnchor => CopiesAgree(samples) && !OneAnchor(samples)
    case ClockWentBackwards => CopiesAgree(samples) && OneAnchor(samples) && !Monotone(samples)
    case NoStartSample =>
      samples != [] && Monotone(samples) && OneAnchor(samples) && !exists a :: a in samples && a.number == 0 && a.elapsed == 0
  }

  /** The latest reading of the samples, or the latest record seen on their clock if that is later. */
  ghost predicate IsExposure(samples: seq<Sample>, observedMax: Option<int>, ms: int) {
    && (forall a <- samples :: a.elapsed <= ms)
    && (observedMax.Some? ==> observedMax.value <= ms)
    && (observedMax == Some(ms) || exists a <- samples :: a.elapsed == ms)
  }

  /** Every sample agrees with the first copy of its number, and the first copies are samples. */
  ghost predicate Collected(samples: seq<Sample>, firsts: seq<Sample>, byNumber: map<nat, Sample>) {
    && (forall a <- samples :: Filed(a, byNumber))
    && (forall n <- byNumber :: byNumber[n] in firsts && byNumber[n].number == n)
    && (forall f <- firsts :: f in samples)
  }

  ghost predicate Filed(a: Sample, byNumber: map<nat, Sample>) {
    a.number in byNumber && byNumber[a.number].elapsed == a.elapsed
  }

  /** The loop over the samples, stopping at the first copy that disagrees. */
  method Collect(samples: seq<Sample>) returns (agreed: bool, firsts: seq<Sample>, byNumber: map<nat, Sample>)
    ensures agreed ==> Collected(samples, firsts, byNumber)
    ensures !agreed ==> !CopiesAgree(samples)
  {
    firsts, byNumber := [], map[];
    for k := 0 to |samples|
      invariant Collected(samples[..k], firsts, byNumber)
    {
      var sample := samples[k];
      assert samples[..k + 1] == samples[..k] + [sample];
      if sample.number in byNumber {
        if byNumber[sample.number].elapsed != sample.elapsed {
          assert byNumber[sample.number] in samples[..k];
          Disagree(samples, byNumber[sample.number], sample);
          return false, firsts, byNumber;
        }
        CollectedAgain(samples[..k], firsts, byNumber, sample);
      } else {
        CollectedMore(samples[..k], firsts, byNumber, sample);
        byNumber := byNumber[sample.number := sample];
        firsts := firsts + [sample];
      }
    }
    assert samples[..|samples|] == samples;
    agreed := true;
  }

  lemma Disagree(samples: seq<Sample>, a: Sample, b: Sample)
    requires a in samples && b in samples && a.number == b.number && a.elapsed != b.elapsed
    ensures !CopiesAgree(samples)
  {
  }

  lemma CollectedAgain(samples: seq<Sample>, firsts: seq<Sample>, byNumber: map<nat, Sample>, a: Sample)
    requires Collected(samples, firsts, byNumber) && Filed(a, byNumber)
    ensures Collected(samples + [a], firsts, byNumber)
  {
  }

  lemma CollectedMore(samples: seq<Sample>, firsts: seq<Sample>, byNumber: map<nat, Sample>, a: Sample)
    requires Collected(samples, firsts, byNumber) && a.number !in byNumber
    ensures Collected(samples + [a], firsts + [a], byNumber[a.number := a])
  {
    var more := byNumber[a.number := a];
    forall b | b in samples + [a]
      ensures Filed(b, more)
    {
      assert b == a || Filed(b, byNumber);
    }
  }

  /** Whether no reading in number order is below the one before it. */
  method Steady(sorted: seq<Interval>) returns (steady: bool)
    requires IsSorted(sorted)
    ensures steady <==> EndsInOrder(sorted)
  {
    var k := 1;
    while k < |sorted|
      invariant k >= 1
      invariant forall i, j :: 0 <= i < j < k && j < |sorted| ==> sorted[i].end <= sorted[j].end
    {
      if sorted[k].end < sorted[k - 1].end {
        return false;
      }
      assert forall i :: 0 <= i < k ==> sorted[i].end <= sorted[k - 1].end;
      k := k + 1;
    }
    return true;
  }

  /** The readings in number order hold exactly the samples' numbers and readings. */
  ghost predicate Lists(sorted: seq<Interval>, samples: seq<Sample>) {
    && (forall a <- samples :: Numbered(a) in sorted)
    && (forall i <- sorted :: Listed(i, samples))
  }

  ghost predicate Listed(i: Interval, samples: seq<Sample>) {
    exists a :: a in samples && Numbered(a) == i
  }

  lemma SortedLists(samples: seq<Sample>, firsts: seq<Sample>, byNumber: map<nat, Sample>)
    requires Collected(samples, firsts, byNumber)
    ensures Lists(Sorted(NumberedAll(firsts)), samples)
  {
    var items := NumberedAll(firsts);
    var sorted := Sorted(items);
    forall a | a in samples
      ensures Numbered(a) in sorted
    {
      assert Filed(a, byNumber);
      var f := byNumber[a.number];
      var k :| 0 <= k < |firsts| && firsts[k] == f;
      assert Numbered(a) == items[k];
      InSorted(items, items[k]);
    }
    forall i | i in sorted
      ensures Listed(i, samples)
    {
      InSorted(items, i);
      var k :| 0 <= k < |items| && items[k] == i;
      assert firsts[k] in firsts;
      assert firsts[k] in samples && Numbered(firsts[k]) == i;
    }
  }

  lemma InSorted(items: seq<Interval>, i: Interval)
    ensures i in Sorted(items) <==> i in items
  {
    assert i in multiset(Sorted(items)) <==> i in multiset(items);
  }

  ghost predicate EndsInOrder(sorted: seq<Interval>) {
    forall i, j :: 0 <= i < j < |sorted| ==> sorted[i].end <= sorted[j].end
  }

  ghost predicate CopiesAgree(samples: seq<Sample>) {
    forall a, b :: a in samples && b in samples && a.number == b.number ==> a.elapsed == b.elapsed
  }

  lemma CollectedCopiesAgree(samples: seq<Sample>, firsts: seq<Sample>, byNumber: map<nat, Sample>)
    requires Collected(samples, firsts, byNumber)
    ensures CopiesAgree(samples)
  {
    forall a, b | a in samples && b in samples && a.number == b.number
      ensures a.elapsed == b.elapsed
    {
      assert Filed(a, byNumber) && Filed(b, byNumber);
    }
  }

  lemma MonotoneIfEndsInOrder(samples: seq<Sample>, sorted: seq<Interval>)
    requires Lists(sorted, samples) && IsSorted(sorted) && EndsInOrder(sorted) && CopiesAgree(samples)
    ensures Monotone(samples)
  {
    forall a, b | a in samples && b in samples && a.number <= b.number
      ensures a.elapsed <= b.elapsed
    {
      assert Numbered(a) in sorted && Numbered(b) in sorted;
      var i :| 0 <= i < |sorted| && sorted[i] == Numbered(a);
      var j :| 0 <= j < |sorted| && sorted[j] == Numbered(b);
      if j < i {
        assert Leq(sorted[j], sorted[i]);
      }
    }
  }

  lemma EndsInOrderIfMonotone(samples: seq<Sample>, sorted: seq<Interval>)
    requires Lists(sorted, samples) && IsSorted(sorted) && Monotone(samples)
    ensures EndsInOrder(sorted)
  {
    forall i, j | 0 <= i < j < |sorted|
      ensures sorted[i].end <= sorted[j].end
    {
      assert Leq(sorted[i], sorted[j]);
      assert Listed(sorted[i], samples) && Listed(sorted[j], samples);
      var a :| a in samples && Numbered(a) == sorted[i];
      var b :| b in samples && Numbered(b) == sorted[j];
    }
  }

  /** Whether at most one anchor other than None occurs. */
  method Anchored(samples: seq<Sample>) returns (one: bool)
    ensures one <==> OneAnchor(samples)
  {
    var first: Option<Sample> := None;
    for k := 0 to |samples|
      invariant first.None? <==> forall j :: 0 <= j < k ==> samples[j].anchor.None?
      invariant first.Some? ==> first.value in samples && first.value.anchor.Some?
      invariant first.Some? ==> forall j :: 0 <= j < k && samples[j].anchor.Some? ==> samples[j].anchor == first.value.anchor
    {
      if samples[k].anchor.Some? {
        if first.None? {
          first := Some(samples[k]);
        } else if samples[k].anchor != first.value.anchor {
          assert samples[k] in samples;
          return false;
        }
      }
    }
    return true;
  }

  /** `clock_exposure`: an exposure exactly for a verified clock, and then its latest reading or the
      latest record seen on it, whichever is later. */
  method ClockExposure(samples: seq<Sample>, observedMax: Option<int>) returns (exposure: Exposure)
    ensures exposure.Exposed? <==> Verified(samples)
    ensures exposure.Exposed? ==> IsExposure(samples, observedMax, exposure.ms)
    ensures exposure.Unverified? ==> WhyIs(samples, exposure.why)
  {
    if samples == [] {
      return Unverified(NoClockSamples);
    }
    var agreed, firsts, byNumber := Collect(samples);
    if !agreed {
      MonotoneCopiesAgree(samples);
      return Unverified(ConflictingSamples);
    }
    CollectedCopiesAgree(samples, firsts, byNumber);
    var anchored := Anchored(samples);
    if !anchored {
      return Unverified(ConflictingAnchor);
    }
    var sorted := Sorted(NumberedAll(firsts));
    SortedLists(samples, firsts, byNumber);
    var steady := Steady(sorted);
    if !steady {
      if Monotone(samples) {
        EndsInOrderIfMonotone(samples, sorted);
      }
      return Unverified(ClockWentBackwards);
    }
    MonotoneIfEndsInOrder(samples, sorted);
    StartSample(samples, firsts, byNumber);
    if 0 !in byNumber || byNumber[0].elapsed != 0 {
      return Unverified(NoStartSample);
    }
    exposure := Latest(samples, sorted, observedMax);
  }

  lemma MonotoneCopiesAgree(samples: seq<Sample>)
    ensures Monotone(samples) ==> CopiesAgree(samples)
  {
    if Monotone(samples) {
      forall a, b | a in samples && b in samples && a.number == b.number
        ensures a.elapsed == b.elapsed
      {
        assert a.elapsed <= b.elapsed && b.elapsed <= a.elapsed;
      }
    }
  }

  lemma StartSample(samples: seq<Sample>, firsts: seq<Sample>, byNumber: map<nat, Sample>)
    requires Collected(samples, firsts, byNumber)
    ensures (0 in byNumber && byNumber[0].elapsed == 0) <==> exists a :: a in samples && a.number == 0 && a.elapsed == 0
  {
    if a :| a in samples && a.number == 0 && a.elapsed == 0 {
      assert Filed(a, byNumber);
    }
    if 0 in byNumber {
      assert byNumber[0] in samples;
    }
  }

  method Latest(ghost samples: seq<Sample>, sorted: seq<Interval>, observedMax: Option<int>) returns (exposure: Exposure)
    requires samples != [] && Lists(sorted, samples) && EndsInOrder(sorted)
    ensures exposure.Exposed? && IsExposure(samples, observedMax, exposure.ms)
  {
    assert Numbered(samples[0]) in sorted;
    var last := sorted[|sorted| - 1];
    assert Listed(last, samples);
    ghost var a :| a in samples && Numbered(a) == last;
    forall b | b in samples
      ensures b.elapsed <= last.end
    {
      assert Numbered(b) in sorted;
      var i :| 0 <= i < |sorted| && sorted[i] == Numbered(b);
    }
    assert last.end == a.elapsed;
    var seen := if observedMax.Some? then observedMax.value else 0;
    return Exposed(if last.end >= seen then last.end else seen);
  }

  // ----- the scopes of one report -----

  datatype Scope = Scope(pid: nat, room: string, session: string)

  /** One reply: its scope, and its gap if it owed one. */
  datatype Row = Row(scope: Scope, owed: Option<Gap>)

  /** A gap as `owed_gap` makes one: without an unknown exactly when it runs forward. */
  ghost predicate WellMade(g: Gap) {
    g.unknown.None? <==> g.start.Some? && g.end.Some? && g.start.value <= g.end.value
  }

  function IntervalOf(g: Gap): Interval
    requires g.start.Some? && g.end.Some?
  {
    Interval(g.start.value, g.end.value)
  }

  ghost predicate RowsWellMade(rows: seq<Row>) {
    forall k :: 0 <= k < |rows| && rows[k].owed.Some? ==> WellMade(rows[k].owed.value)
  }

  predicate Known(r: Row, scope: Scope) {
    r.scope == scope && r.owed.Some? && r.owed.value.unknown.None?
  }

  /** The known gaps of one scope, in row order. */
  function IntervalsOf(rows: seq<Row>, scope: Scope): (s: seq<Interval>)
    requires RowsWellMade(rows)
  {
    if rows == [] then []
    else
      var last := rows[|rows| - 1];
      IntervalsOf(rows[..|rows| - 1], scope) + if Known(last, scope) then [IntervalOf(last.owed.value)] else []
  }

  ghost predicate EndsBy(rows: seq<Row>, scope: Scope, limit: int) {
    forall k :: 0 <= k < |rows| && rows[k].scope == scope && rows[k].owed.Some? && rows[k].owed.value.end.Some? ==>
                  rows[k].owed.value.end.value <= limit
  }

  /** A scope's intervals run forward, and none ends later than its rows do. */
  lemma {:induction false} IntervalsRunForward(rows: seq<Row>, scope: Scope, limit: int)
    requires RowsWellMade(rows)
    ensures Forward(IntervalsOf(rows, scope))
    ensures EndsBy(rows, scope, limit) ==>
              forall k :: 0 <= k < |IntervalsOf(rows, scope)| ==> IntervalsOf(rows, scope)[k].end <= limit
    decreases |rows|
  {
    if rows != [] {
      var front, last := rows[..|rows| - 1], rows[|rows| - 1];
      IntervalsRunForward(front, scope, limit);
      assert last.owed.Some? ==> WellMade(last.owed.value);
      if EndsBy(rows, scope, limit) {
        assert EndsBy(front, scope, limit);
      }
    }
  }

  /** The latest clock reading seen in each scope. */
  class Observations {
    var observed: map<Scope, int>

    constructor (observed: map<Scope, int>)
      ensures this.observed == observed
    {
      this.observed := observed;
    }

    /** `observe`: moves a scope's reading forward and leaves every other scope alone. */
    method Observe(scope: Scope, at: Option<int>)
      modifies this
      ensures observed == Observed(old(observed), scope, at)
    {
      if at.Some? && at.value > (if scope in observed then observed[scope] else at.value - 1) {
        observed := observed[scope := at.value];
      }
    }

    /** The pass over the rows: an owed end known to be on the clock is a reading of it. */
    method ObserveEnds(rows: seq<Row>)
      modifies this
      ensures observed == ObservedRows(old(observed), rows)
    {
      for k := 0 to |rows|
        invariant observed == ObservedRows(old(observed), rows[..k])
      {
        assert rows[..k + 1][..k] == rows[..k];
        if rows[k].owed.Some? && rows[k].owed.value.end.Some? {
          Observe(rows[k].scope, rows[k].owed.value.end);
        }
      }
      assert rows[..|rows|] == rows;
    }
  }

  function Observed(seen: map<Scope, int>, scope: Scope, at: Option<int>): map<Scope, int> {
    if at.None? || (scope in seen && seen[scope] >= at.value) then seen else seen[scope := at.value]
  }

  function ObservedRows(seen: map<Scope, int>, rows: seq<Row>): map<Scope, int> {
    if rows == [] then seen
    else
      var last := rows[|rows| - 1];
      Observed(ObservedRows(seen, rows[..|rows| - 1]), last.scope, if last.owed.Some? then last.owed.value.end else None)
  }

  function Reading(seen: map<Scope, int>, scope: Scope): Option<int> {
    if scope in seen then Some(seen[scope]) else None
  }

  ghost predicate EndsIn(row: Row, scope: Scope, at: int) {
    row.scope == scope && row.owed.Some? && row.owed.value.end == Some(at)
  }

  /** After the pass a scope's reading is the latest of the one before and its own rows' ends. */
  lemma {:induction false} ObservedIsLatest(seen: map<Scope, int>, rows: seq<Row>, scope: Scope)
    ensures var before, after := Reading(seen, scope), Reading(ObservedRows(seen, rows), scope);
            && (before.Some? ==> after.Some? && before.value <= after.value)
            && EndsSeen(rows, scope, after)
            && (after != before ==> after.Some? && exists k :: 0 <= k < |rows| && EndsIn(rows[k], scope, after.value))
    decreases |rows|
  {
    if rows != [] {
      var front, last := rows[..|rows| - 1], rows[|rows| - 1];
      ObservedIsLatest(seen, front, scope);
      var mid, after := Reading(ObservedRows(seen, front), scope), Reading(ObservedRows(seen, rows), scope);
      if after != mid {
        assert EndsIn(rows[|rows| - 1], scope, after.value);
      } else if after != Reading(seen, scope) {
        var k :| 0 <= k < |front| && EndsIn(front[k], scope, after.value);
        assert EndsIn(rows[k], scope, after.value);
      }
      assert forall k :: 0 <= k < |front| ==> rows[k] == front[k];
    }
  }

  // A scope's figures, with no reference to how its intervals are collected.

  predicate OwesAt(rows: seq<Row>, scope: Scope, k: int) {
    0 <= k < |rows| && rows[k].scope == scope && rows[k].owed.Some?
  }

  predicate KnownAt(rows: seq<Row>, scope: Scope, k: int) {
    OwesAt(rows, scope, k) && rows[k].owed.value.unknown.None?
  }

  /** Some reply of the scope was owed at `t`, by a known gap. */
  ghost predicate OwedAt(rows: seq<Row>, scope: Scope, t: int)
    requires RowsWellMade(rows)
  {
    exists k :: KnownAt(rows, scope, k) && rows[k].owed.value.start.value <= t < rows[k].owed.value.end.value
  }

  function OwingRows(rows: seq<Row>, scope: Scope): set<int> {
    set k | 0 <= k < |rows| && OwesAt(rows, scope, k)
  }

  function KnownRows(rows: seq<Row>, scope: Scope): set<int> {
    set k | 0 <= k < |rows| && KnownAt(rows, scope, k)
  }

  /** The intervals collected for a scope hold exactly the instants at which a reply of it was owed, one
      interval for each known gap, one row for each owed reply. */
  lemma {:induction false} IntervalsAreTheGaps(rows: seq<Row>, scope: Scope)
    requires RowsWellMade(rows)
    ensures forall t :: t in Union(IntervalsOf(rows, scope)) <==> OwedAt(rows, scope, t)
    ensures |IntervalsOf(rows, scope)| == |KnownRows(rows, scope)|
    ensures |OwedIn(rows, scope)| == |OwingRows(rows, scope)|
    decreases |rows|
  {
    if rows == [] {
      assert KnownRows(rows, scope) == {} && OwingRows(rows, scope) == {};
    } else {
      var front, last := rows[..|rows| - 1], rows[|rows| - 1];
      IntervalsAreTheGaps(front, scope);
      assert last.owed.Some? ==> WellMade(last.owed.value);
      forall t
        ensures t in Union(IntervalsOf(rows, scope)) <==> OwedAt(rows, scope, t)
      {
        OneRowMore(rows, scope, t);
      }
      RowSetsGrow(rows, scope);
    }
  }

  lemma OneRowMore(rows: seq<Row>, scope: Scope, t: int)
    requires rows != [] && RowsWellMade(rows)
    requires t in Union(IntervalsOf(rows[..|rows| - 1], scope)) <==> OwedAt(rows[..|rows| - 1], scope, t)
    ensures t in Union(IntervalsOf(rows, scope)) <==> OwedAt(rows, scope, t)
  {
    var front, last := rows[..|rows| - 1], rows[|rows| - 1];
    assert last.owed.Some? ==> WellMade(last.owed.value);
    LastMayOwe(rows, scope, t);
    if Known(last, scope) {
      LastRowAdds(rows, scope, [IntervalOf(last.owed.value)]);
      hide IntervalsOf, Union;
      LastInterval(IntervalsOf(front, scope), IntervalOf(last.owed.value), t);
    } else {
      LastRowAdds(rows, scope, []);
      hide IntervalsOf, Union;
      assert IntervalsOf(front, scope) + [] == IntervalsOf(front, scope);
    }
  }

  lemma LastInterval(s: seq<Interval>, i: Interval, t: int)
    ensures t in Union(s + [i]) <==> t in Union(s) || i.start <= t < i.end
  {
    UnionOfSum(s, i);
  }

  lemma LastMayOwe(rows: seq<Row>, scope: Scope, t: int)
    requires rows != [] && RowsWellMade(rows)
    ensures var n := |rows| - 1;
            OwedAt(rows, scope, t) <==>
              || OwedAt(rows[..n], scope, t)
              || (KnownAt(rows, scope, n) && rows[n].owed.value.start.value <= t < rows[n].owed.value.end.value)
  {
    var n, front := |rows| - 1, rows[..|rows| - 1];
    assert forall k :: 0 <= k < n ==> rows[k] == front[k];
    if OwedAt(front, scope, t) {
      var k :| KnownAt(front, scope, k) && front[k].owed.value.start.value <= t < front[k].owed.value.end.value;
      assert KnownAt(rows, scope, k);
    }
    if OwedAt(rows, scope, t) {
      var k :| KnownAt(rows, scope, k) && rows[k].owed.value.start.value <= t < rows[k].owed.value.end.value;
      if k < n {
        assert KnownAt(front, scope, k);
      }
    }
  }

  /** What a row adds to the collection: its known gap as it is, if it is of the scope. */
  ghost predicate AddsOf(row: Row, scope: Scope, intervals: seq<Interval>) {
    intervals == if KnownAt([row], scope, 0) && row.owed.value.start.Some? && row.owed.value.end.Some?
                 then [Interval(row.owed.value.start.value, row.owed.value.end.value)] else []
  }

  lemma LastRowAdds(rows: seq<Row>, scope: Scope, added: seq<Interval>)
    requires rows != [] && RowsWellMade(rows) && AddsOf(rows[|rows| - 1], scope, added)
    ensures RowsWellMade(rows[..|rows| - 1])
    ensures IntervalsOf(rows, scope) == IntervalsOf(rows[..|rows| - 1], scope) + added
  {
    var row := rows[|rows| - 1];
    assert row.owed.Some? ==> WellMade(row.owed.value);
  }

  lemma WellMadeParts(a: seq<Row>, b: seq<Row>)
    requires RowsWellMade(a) && RowsWellMade(b)
    ensures RowsWellMade(a + b)
    ensures b != [] ==> RowsWellMade(b[..|b| - 1]) && RowsWellMade([b[|b| - 1]])
  {
  }

  /** The collection is additive over rows. */
  lemma {:induction false} IntervalsAddUp(a: seq<Row>, b: seq<Row>, scope: Scope)
    requires RowsWellMade(a) && RowsWellMade(b)
    ensures RowsWellMade(a + b)
    ensures IntervalsOf(a + b, scope) == IntervalsOf(a, scope) + IntervalsOf(b, scope)
    decreases |b|
  {
    hide IntervalsOf, AddsOf, RowsWellMade;
    WellMadeParts(a, b);
    if b == [] {
      assert a + b == a;
      NoRows(scope);
    } else {
      var front, row := b[..|b| - 1], b[|b| - 1];
      var added := IntervalsOf([row], scope);
      assert (a + b)[..|a + b| - 1] == a + front && (a + b)[|a + b| - 1] == row;
      IntervalsAddUp(a, front, scope);
      OneRow(row, scope);
      LastRowAdds(b, scope, added);
      LastRowAdds(a + b, scope, added);
    }
  }

  lemma NoRows(scope: Scope)
    ensures RowsWellMade([]) && IntervalsOf([], scope) == []
  {
  }

  /** A single row is collected as what it adds, which with additivity fixes the collection. */
  lemma OneRow(row: Row, scope: Scope)
    requires RowsWellMade([row])
    ensures AddsOf(row, scope, IntervalsOf([row], scope))
  {
    assert [row][..0] == [];
    assert IntervalsOf([], scope) == [];
    assert [row][0].owed.Some? ==> WellMade(row.owed.value);
  }

  lemma RowSetsGrow(rows: seq<Row>, scope: Scope)
    requires rows != []
    ensures var front, n := rows[..|rows| - 1], |rows| - 1;
            && |KnownRows(rows, scope)| == |KnownRows(front, scope)| + (if KnownAt(rows, scope, n) then 1 else 0)
            && |OwingRows(rows, scope)| == |OwingRows(front, scope)| + (if OwesAt(rows, scope, n) then 1 else 0)
  {
    KnownRowsGrow(rows, scope);
    OwingRowsGrow(rows, scope);
  }

  lemma KnownRowsGrow(rows: seq<Row>, scope: Scope)
    requires rows != []
    ensures var front, n := rows[..|rows| - 1], |rows| - 1;
            |KnownRows(rows, scope)| == |KnownRows(front, scope)| + if KnownAt(rows, scope, n) then 1 else 0
  {
    var front, n := rows[..|rows| - 1], |rows| - 1;
    assert forall k :: 0 <= k < n ==> rows[k] == front[k];
    assert KnownRows(rows, scope) == KnownRows(front, scope) + if KnownAt(rows, scope, n) then {n} else {};
  }

  lemma OwingRowsGrow(rows: seq<Row>, scope: Scope)
    requires rows != []
    ensures var front, n := rows[..|rows| - 1], |rows| - 1;
            |OwingRows(rows, scope)| == |OwingRows(front, scope)| + if OwesAt(rows, scope, n) then 1 else 0
  {
    var front, n := rows[..|rows| - 1], |rows| - 1;
    assert forall k :: 0 <= k < n ==> rows[k] == front[k];
    assert OwingRows(rows, scope) == OwingRows(front, scope) + if OwesAt(rows, scope, n) then {n} else {};
  }

  datatype ScopeRow = ScopeRow(scope: Scope, owedReplies: nat, unknownGaps: nat, owedMs: int, summedMs: int,
                               exposure: Exposure, observedEnd: Option<int>)

  /** What every line of the report keeps: it counts the replies owed and those whose gap is unknown; its
      owed time is the number of instants at which some reply of the scope was owed, never more than the
      summed gaps, and within the exposure of a verified clock if no gap starts before zero. */
  ghost predicate LineIsSound(line: ScopeRow, rows: seq<Row>)
    requires RowsWellMade(rows)
  {
    var intervals := IntervalsOf(rows, line.scope);
    && line.owedReplies == |OwingRows(rows, line.scope)|
    && line.unknownGaps == |OwingRows(rows, line.scope)| - |KnownRows(rows, line.scope)|
    && (forall t :: t in Union(intervals) <==> OwedAt(rows, line.scope, t))
    && line.owedMs == |Union(intervals)| && line.summedMs == Summed(intervals) && line.owedMs <= line.summedMs
    && (line.exposure.Exposed? && StartsAtZero(intervals) ==> line.owedMs <= line.exposure.ms)
  }

  ghost predicate StartsAtZero(s: seq<Interval>) {
    forall k :: 0 <= k < |s| ==> s[k].start >= 0
  }

  /** Every owed end of a scope has been observed on its clock. */
  ghost predicate EndsSeen(rows: seq<Row>, scope: Scope, observed: Option<int>) {
    forall k :: 0 <= k < |rows| && rows[k].scope == scope && rows[k].owed.Some? && rows[k].owed.value.end.Some? ==>
                  observed.Some? && rows[k].owed.value.end.value <= observed.value
  }

  method CountReplies(rows: seq<Row>, scope: Scope) returns (owed: nat, unknown: nat)
    requires RowsWellMade(rows)
    ensures owed == unknown + |IntervalsOf(rows, scope)|
    ensures owed == |OwedIn(rows, scope)|
  {
    owed, unknown := 0, 0;
    for k := 0 to |rows|
      invariant owed == unknown + |IntervalsOf(rows[..k], scope)| && owed == |OwedIn(rows[..k], scope)|
    {
      assert rows[..k + 1][..k] == rows[..k];
      if rows[k].scope == scope && rows[k].owed.Some? {
        owed := owed + 1;
        if rows[k].owed.value.unknown.Some? {
          unknown := unknown + 1;
        }
      }
    }
    assert rows[..|rows|] == rows;
  }

  /** The replies of a scope that owed a gap, known or not. */
  function OwedIn(rows: seq<Row>, scope: Scope): seq<Row> {
    if rows == [] then []
    else
      var last := rows[|rows| - 1];
      OwedIn(rows[..|rows| - 1], scope) + if last.scope == scope && last.owed.Some? then [last] else []
  }

  method SumGaps(s: seq<Interval>) returns (total: int)
    ensures total == Summed(s)
  {
    total := 0;
    for k := 0 to |s|
      invariant total == Summed(s[..k])
    {
      assert s[..k + 1][..k] == s[..k];
      total := total + (s[k].end - s[k].start);
    }
    assert s[..|s|] == s;
  }

  /** The whole line of one scope, for the samples of its clock and the latest reading seen on it. */
  ghost predicate LineIs(line: ScopeRow, scope: Scope, rows: seq<Row>, samples: seq<Sample>, observed: Option<int>)
    requires RowsWellMade(rows)
  {
    && line.scope == scope && LineIsSound(line, rows)
    && line.observedEnd == observed
    && (line.exposure.Exposed? <==> Verified(samples))
    && (line.exposure.Exposed? ==> IsExposure(samples, observed, line.exposure.ms))
    && (line.exposure.Unverified? ==> WhyIs(samples, line.exposure.why))
  }

  /** One scope's line, after every end has been observed. */
  method ScopeLine(scope: Scope, rows: seq<Row>, samples: seq<Sample>, observed: Option<int>) returns (line: ScopeRow)
    requires RowsWellMade(rows)
    requires EndsSeen(rows, scope, observed)
    ensures LineIs(line, scope, rows, samples, observed)
  {
    var intervals := IntervalsOf(rows, scope);
    IntervalsRunForward(rows, scope, 0);
    ForwardIsHarmless(intervals);
    var owed := MergedLength(intervals);
    var summed := SumGaps(intervals);
    var exposure := ClockExposure(samples, observed);
    UnionAtMostSum(intervals);
    IntervalsAreTheGaps(rows, scope);
    if exposure.Exposed? && StartsAtZero(intervals) {
      IntervalsRunForward(rows, scope, exposure.ms);
      UnionWithinExposure(intervals, exposure.ms);
    }
    var replies, unknown := CountReplies(rows, scope);
    line := ScopeRow(scope, replies, unknown, owed, summed, exposure, observed);
  }

  /** The totals over the scopes whose clock is verified. */
  function VerifiedOwed(lines: seq<ScopeRow>): int {
    if lines == [] then 0
    else
      var last := lines[|lines| - 1];
      VerifiedOwed(lines[..|lines| - 1]) + if last.exposure.Exposed? then last.owedMs else 0
  }

  function VerifiedExposure(lines: seq<ScopeRow>): int {
    if lines == [] then 0
    else
      var last := lines[|lines| - 1];
      VerifiedExposure(lines[..|lines| - 1]) + if last.exposure.Exposed? then last.exposure.ms else 0
  }

  /** Both totals are additive over lists, and count a line exactly if its clock is verified. */
  lemma {:induction false} TotalsAddUp(a: seq<ScopeRow>, b: seq<ScopeRow>)
    ensures VerifiedOwed(a + b) == VerifiedOwed(a) + VerifiedOwed(b)
    ensures VerifiedExposure(a + b) == VerifiedExposure(a) + VerifiedExposure(b)
    ensures |a| == 1 ==> VerifiedOwed(a) == if a[0].exposure.Exposed? then a[0].owedMs else 0
    ensures |a| == 1 ==> VerifiedExposure(a) == if a[0].exposure.Exposed? then a[0].exposure.ms else 0
    decreases |b|
  {
    if b == [] {
      assert a + b == a;
    } else {
      assert (a + b)[..|a + b| - 1] == a + b[..|b| - 1];
      TotalsAddUp(a, b[..|b| - 1]);
    }
    if |a| == 1 {
      assert a[..0] == [];
    }
  }

  function SamplesOf(clocks: map<Scope, seq<Sample>>, scope: Scope): seq<Sample> {
    if scope in clocks then clocks[scope] else []
  }

  ghost predicate LineFor(line: ScopeRow, scope: Scope, rows: seq<Row>, clocks: map<Scope, seq<Sample>>,
                          seen: map<Scope, int>)
    requires RowsWellMade(rows)
  {
    LineIs(line, scope, rows, if scope in clocks then clocks[scope] else [],
           if scope in seen then Some(seen[scope]) else None)
  }

  method ScopeLines(rows: seq<Row>, clocks: map<Scope, seq<Sample>>, keys: seq<Scope>, seen: map<Scope, int>)
    returns (lines: seq<ScopeRow>)
    requires RowsWellMade(rows)
    requires forall scope :: EndsSeen(rows, scope, Reading(seen, scope))
    ensures |lines| == |keys|
    ensures forall k :: 0 <= k < |keys| ==> LineFor(lines[k], keys[k], rows, clocks, seen)
  {
    lines := [];
    for k := 0 to |keys|
      invariant |lines| == k
      invariant forall j :: 0 <= j < k ==> LineFor(lines[j], keys[j], rows, clocks, seen)
    {
      var line := ScopeLine(keys[k], rows, SamplesOf(clocks, keys[k]), Reading(seen, keys[k]));
      lines := lines + [line];
    }
  }

  method Totals(lines: seq<ScopeRow>) returns (owedMs: int, exposureMs: int)
    ensures owedMs == VerifiedOwed(lines) && exposureMs == VerifiedExposure(lines)
  {
    owedMs, exposureMs := 0, 0;
    for k := 0 to |lines|
      invariant owedMs == VerifiedOwed(lines[..k]) && exposureMs == VerifiedExposure(lines[..k])
    {
      assert lines[..k + 1][..k] == lines[..k];
      if lines[k].exposure.Exposed? {
        owedMs, exposureMs := owedMs + lines[k].owedMs, exposureMs + lines[k].exposure.ms;
      }
    }
    assert lines[..|lines|] == lines;
  }

  lemma {:induction false} OwedWithinExposure(lines: seq<ScopeRow>)
    requires forall k :: 0 <= k < |lines| && lines[k].exposure.Exposed? ==> lines[k].owedMs <= lines[k].exposure.ms
    ensures VerifiedOwed(lines) <= VerifiedExposure(lines)
    decreases |lines|
  {
    if lines != [] {
      OwedWithinExposure(lines[..|lines| - 1]);
    }
  }

  /** The scope part of `lifecycle_report`: every owed end is observed first, then one line per scope;
      over the verified scopes the owed total never exceeds the exposure if no gap starts before zero. */
  method ReportScopes(rows: seq<Row>, clocks: map<Scope, seq<Sample>>, keys: seq<Scope>, state: Observations)
    returns (lines: seq<ScopeRow>, owedMs: int, exposureMs: int)
    requires RowsWellMade(rows)
    modifies state
    ensures state.observed == ObservedRows(old(state.observed), rows)
    ensures |lines| == |keys|
    ensures forall k :: 0 <= k < |keys| ==> LineFor(lines[k], keys[k], rows, clocks, state.observed)
    ensures owedMs == VerifiedOwed(lines) && exposureMs == VerifiedExposure(lines)
    ensures (forall scope :: StartsAtZero(IntervalsOf(rows, scope))) ==> owedMs <= exposureMs
  {
    state.ObserveEnds(rows);
    forall scope: Scope
      ensures EndsSeen(rows, scope, Reading(state.observed, scope))
    {
      ObservedIsLatest(old(state.observed), rows, scope);
    }
    lines := ScopeLines(rows, clocks, keys, state.observed);
    owedMs, exposureMs := Totals(lines);
    if forall scope :: StartsAtZero(IntervalsOf(rows, scope)) {
      forall k | 0 <= k < |lines| && lines[k].exposure.Exposed?
        ensures lines[k].owedMs <= lines[k].exposure.ms
      {
        assert LineFor(lines[k], keys[k], rows, clocks, state.observed);
      }
      OwedWithinExposure(lines);
    }
  }
}
