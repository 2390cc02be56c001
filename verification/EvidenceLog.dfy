/** The capped evidence log and the observation it gives up
    (src/agent.rs, 1378, 1481-1572; src/agent/framework.rs, 238-264 and 312-343). */
module EvidenceLog {
  import opened Wrappers

  datatype Phase = Repeat | Example | Algorithm | Coding | Test | Optimizations | Situation | Task | Action | Result

  datatype Kind = Observed | Inferred | Skipped

  datatype Evidence = Evidence(atMs: nat, phase: Phase, kind: Kind, summary: string)

  const MAX_FRAMEWORK_EVIDENCE: nat := 64

  /** Whether row `index` can go: another row covers its phase, with an observation if it is one. */
  predicate Spared(rows: seq<Evidence>, index: nat, other: nat)
    requires index < |rows| && other < |rows|
  {
    && other != index && rows[other].phase == rows[index].phase
    && (rows[index].kind == Skipped || rows[other].kind != Skipped)
  }

  predicate Expendable(rows: seq<Evidence>, index: nat)
    requires index < |rows|
  {
    exists other: nat | other < |rows| :: Spared(rows, index, other)
  }

  ghost predicate IsOldestExpendable(rows: seq<Evidence>, doomed: Option<nat>) {
    && (doomed.None? ==> forall i: nat :: i < |rows| ==> !Expendable(rows, i))
    && (doomed.Some? ==>
          && doomed.value < |rows| && Expendable(rows, doomed.value)
          && forall i: nat :: i < doomed.value ==> !Expendable(rows, i))
  }

  function Without(rows: seq<Evidence>, index: nat): seq<Evidence>
    requires index < |rows|
  {
    rows[..index] + rows[index + 1..]
  }

  function OldestFrom(rows: seq<Evidence>, from: nat): (doomed: Option<nat>)
    requires from <= |rows| && forall i: nat :: i < from ==> !Expendable(rows, i)
    ensures IsOldestExpendable(rows, doomed)
    decreases |rows| - from
  {
    if from == |rows| then None
    else if Expendable(rows, from) then Some(from)
    else OldestFrom(rows, from + 1)
  }

  /** The rows left: without the oldest expendable one, or without the first if none is. */
  function Evict(rows: seq<Evidence>): seq<Evidence>
    requires rows != []
  {
    match OldestFrom(rows, 0)
    case Some(i) => Without(rows, i)
    case None => Without(rows, 0)
  }

  function Record(rows: seq<Evidence>, e: Evidence): seq<Evidence> {
    (if |rows| == MAX_FRAMEWORK_EVIDENCE then Evict(rows) else rows) + [e]
  }

  /** The list of rows the interview state keeps. */
  class Log {
    var rows: seq<Evidence>

    constructor ()
      ensures rows == []
    {
      rows := [];
    }

    /** Whether another row spares this one, looked for row by row. */
    method IsExpendable(index: nat) returns (spare: bool)
      requires index < |rows|
      ensures spare == Expendable(rows, index)
    {
      for other := 0 to |rows|
        invariant forall k: nat :: k < other ==> !Spared(rows, index, k)
      {
        if Spared(rows, index, other) {
          return true;
        }
      }
      return false;
    }

    method EvictOne()
      requires rows != []
      modifies this
      ensures rows == Evict(old(rows))
    {
      var doomed := 0;
      for index := 0 to |rows|
        invariant rows == old(rows) && doomed == 0
        invariant forall i: nat :: i < index ==> !Expendable(rows, i)
        invariant OldestFrom(rows, 0) == OldestFrom(rows, index)
      {
        var spare := IsExpendable(index);
        if spare {
          doomed := index;
          break;
        }
      }
      rows := rows[..doomed] + rows[doomed + 1..];
    }

    method Append(e: Evidence)
      modifies this
      ensures rows == Record(old(rows), e)
    {
      if |rows| == MAX_FRAMEWORK_EVIDENCE {
        EvictOne();
      }
      rows := rows + [e];
    }
  }

  // ----- coverage -----

  ghost predicate HasPhase(rows: seq<Evidence>, p: Phase) {
    exists k :: 0 <= k < |rows| && rows[k].phase == p
  }

  /** The phase has a row a report counts: one that is not a skip. */
  ghost predicate HasObservation(rows: seq<Evidence>, p: Phase) {
    exists k :: 0 <= k < |rows| && rows[k].phase == p && rows[k].kind != Skipped
  }

  ghost predicate SameCoverage(a: seq<Evidence>, b: seq<Evidence>) {
    forall p: Phase :: (HasPhase(a, p) <==> HasPhase(b, p)) && (HasObservation(a, p) <==> HasObservation(b, p))
  }

  function PhaseNumber(p: Phase): (n: nat)
    ensures n < 10
  {
    match p
    case Repeat => 0
    case Example => 1
    case Algorithm => 2
    case Coding => 3
    case Test => 4
    case Optimizations => 5
    case Situation => 6
    case Task => 7
    case Action => 8
    case Result => 9
  }

  ghost predicate DistinctPhases(rows: seq<Evidence>) {
    forall i, j :: 0 <= i < j < |rows| ==> rows[i].phase != rows[j].phase
  }

  /** Numbers of the phases of `rows`. */
  ghost function Numbers(rows: seq<Evidence>): set<nat> {
    if rows == [] then {} else Numbers(rows[..|rows| - 1]) + {PhaseNumber(rows[|rows| - 1].phase)}
  }

  lemma {:induction false} NumbersOccur(rows: seq<Evidence>, n: nat)
    requires n in Numbers(rows)
    ensures n < 10 && exists k :: 0 <= k < |rows| && PhaseNumber(rows[k].phase) == n
    decreases |rows|
  {
    var front := rows[..|rows| - 1];
    if n in Numbers(front) {
      NumbersOccur(front, n);
      var k :| 0 <= k < |front| && PhaseNumber(front[k].phase) == n;
      assert rows[k] == front[k];
    } else {
      assert PhaseNumber(rows[|rows| - 1].phase) == n;
    }
  }

  lemma DifferentNumbers(p: Phase, q: Phase)
    requires p != q
    ensures PhaseNumber(p) != PhaseNumber(q)
  {
  }

  lemma {:induction false} DistinctNumbers(rows: seq<Evidence>)
    requires DistinctPhases(rows)
    ensures |Numbers(rows)| == |rows|
    decreases |rows|
  {
    if rows != [] {
      var front, last := rows[..|rows| - 1], rows[|rows| - 1].phase;
      DistinctNumbers(front);
      forall k | 0 <= k < |front|
        ensures PhaseNumber(front[k].phase) != PhaseNumber(last)
      {
        DifferentNumbers(rows[k].phase, last);
      }
      if PhaseNumber(last) in Numbers(front) {
        NumbersOccur(front, PhaseNumber(last));
      }
    }
  }

  lemma {:induction false} BoundedCount(s: set<nat>, n: nat)
    requires forall x <- s :: x < n
    ensures |s| <= n
    decreases n
  {
    if n > 0 {
      BoundedCount(s - {n - 1}, n - 1);
      assert s <= (s - {n - 1}) + {n - 1};
    } else {
      assert s == {};
    }
  }

  /** Among any eleven rows some row is expendable: the fallback never runs under the cap. */
  lemma SomeRowIsExpendable(rows: seq<Evidence>)
    requires |rows| > 10
    ensures exists i: nat :: i < |rows| && Expendable(rows, i)
  {
    forall n | n in Numbers(rows)
      ensures n < 10
    {
      NumbersOccur(rows, n);
    }
    BoundedCount(Numbers(rows), 10);
    if DistinctPhases(rows) {
      DistinctNumbers(rows);
    }
    var i, j :| 0 <= i < j < |rows| && rows[i].phase == rows[j].phase;
    if rows[i].kind != Skipped && rows[j].kind == Skipped {
      assert Spared(rows, j, i);
      assert Expendable(rows, j);
    } else {
      assert Spared(rows, i, j);
      assert Expendable(rows, i);
    }
  }

  lemma WithoutAt(rows: seq<Evidence>, index: nat, k: nat)
    requires index < |rows| && k < |rows| && k != index
    ensures exists m :: 0 <= m < |Without(rows, index)| && Without(rows, index)[m] == rows[k]
  {
    var m := if k < index then k else k - 1;
    assert Without(rows, index)[m] == rows[k];
  }

  /** Coverage survives the loss of exactly the expendable rows. */
  lemma CoverageNeedsASpare(rows: seq<Evidence>, index: nat)
    requires index < |rows|
    ensures SameCoverage(rows, Without(rows, index)) <==> Expendable(rows, index)
  {
    var left := Without(rows, index);
    assert forall m :: 0 <= m < |left| ==> left[m] == rows[if m < index then m else m + 1];
    var p := rows[index].phase;
    if Expendable(rows, index) {
      var other: nat :| other < |rows| && Spared(rows, index, other);
      WithoutAt(rows, index, other);
      forall q: Phase
        ensures HasPhase(rows, q) <==> HasPhase(left, q)
        ensures HasObservation(rows, q) <==> HasObservation(left, q)
      {
        if k :| 0 <= k < |rows| && rows[k].phase == q && k != index {
          WithoutAt(rows, index, k);
        }
        if k :| 0 <= k < |rows| && rows[k].phase == q && rows[k].kind != Skipped && k != index {
          WithoutAt(rows, index, k);
        }
      }
    } else if SameCoverage(rows, left) {
      assert HasPhase(rows, p);
      if rows[index].kind == Skipped {
        assert HasPhase(left, p);
        var m :| 0 <= m < |left| && left[m].phase == p;
        assert Spared(rows, index, if m < index then m else m + 1);
      } else {
        assert HasObservation(rows, p);
        assert HasObservation(left, p);
        var m :| 0 <= m < |left| && left[m].phase == p && left[m].kind != Skipped;
        assert Spared(rows, index, if m < index then m else m + 1);
      }
    }
  }

  /** An eviction keeps coverage exactly when some row is expendable. */
  lemma EvictionKeepsCoverage(rows: seq<Evidence>)
    requires rows != []
    ensures SameCoverage(rows, Evict(rows)) <==> exists i: nat :: i < |rows| && Expendable(rows, i)
    ensures |rows| > 10 ==> SameCoverage(rows, Evict(rows))
  {
    match OldestFrom(rows, 0) {
      case Some(i) => CoverageNeedsASpare(rows, i);
      case None => CoverageNeedsASpare(rows, 0);
    }
    if |rows| > 10 {
      SomeRowIsExpendable(rows);
    }
  }

  /** A row whose loss costs no coverage. */
  ghost predicate Harmless(rows: seq<Evidence>, index: nat) {
    index < |rows| && SameCoverage(rows, Without(rows, index))
  }

  /** The row given up is the oldest harmless one, or the first if every row matters. */
  lemma OldestHarmlessGoes(rows: seq<Evidence>)
    requires rows != []
    ensures exists i: nat ::
              && i < |rows| && Evict(rows) == Without(rows, i) && (forall j: nat :: j < i ==> !Harmless(rows, j))
              && (Harmless(rows, i) || (i == 0 && forall j: nat :: !Harmless(rows, j)))
  {
    var doomed := OldestFrom(rows, 0);
    var i := if doomed.Some? then doomed.value else 0;
    forall j: nat | j < |rows|
      ensures Harmless(rows, j) <==> Expendable(rows, j)
    {
      CoverageNeedsASpare(rows, j);
    }
    assert Evict(rows) == Without(rows, i);
  }

  // ----- whole interviews -----

  /** The log after everything in `history` was appended, in order. */
  function LogOf(history: seq<Evidence>): seq<Evidence> {
    if history == [] then [] else Record(LogOf(history[..|history| - 1]), history[|history| - 1])
  }

  lemma AppendKeepsCoverage(a: seq<Evidence>, b: seq<Evidence>, e: Evidence)
    requires SameCoverage(a, b)
    ensures SameCoverage(a + [e], b + [e])
  {
    forall p: Phase
      ensures HasPhase(a + [e], p) <==> HasPhase(b + [e], p)
      ensures HasObservation(a + [e], p) <==> HasObservation(b + [e], p)
    {
      LastRow(a, e, p);
      LastRow(b, e, p);
    }
  }

  lemma LastRow(a: seq<Evidence>, e: Evidence, p: Phase)
    ensures HasPhase(a + [e], p) <==> HasPhase(a, p) || e.phase == p
    ensures HasObservation(a + [e], p) <==> HasObservation(a, p) || (e.phase == p && e.kind != Skipped)
  {
    var all := a + [e];
    assert all[|a|] == e;
    if k :| 0 <= k < |a| && a[k].phase == p {
      assert all[k] == a[k];
    }
    if k :| 0 <= k < |a| && a[k].phase == p && a[k].kind != Skipped {
      assert all[k] == a[k];
    }
  }

  /** However long the interview, the capped log covers the phases, and the observed phases, of
      everything ever recorded, and it ends with the newest record. */
  lemma {:induction false} LogCoversHistory(history: seq<Evidence>)
    ensures |LogOf(history)| <= MAX_FRAMEWORK_EVIDENCE
    ensures SameCoverage(history, LogOf(history))
    ensures history != [] ==> LogOf(history) != [] && LogOf(history)[|LogOf(history)| - 1] == history[|history| - 1]
    decreases |history|
  {
    if history != [] {
      var front, e := history[..|history| - 1], history[|history| - 1];
      var rows := LogOf(front);
      LogCoversHistory(front);
      if |rows| == MAX_FRAMEWORK_EVIDENCE {
        EvictionKeepsCoverage(rows);
        AppendKeepsCoverage(front, Evict(rows), e);
      } else {
        AppendKeepsCoverage(front, rows, e);
      }
      assert history == front + [e];
    }
  }

  /** `a` is what is left of `b` once some rows are taken out, in their order. */
  ghost predicate LeftOf(a: seq<Evidence>, b: seq<Evidence>)
    decreases |b|
  {
    a == [] ||
    (b != [] && ((a[|a| - 1] == b[|b| - 1] && LeftOf(a[..|a| - 1], b[..|b| - 1])) || LeftOf(a, b[..|b| - 1])))
  }

  lemma {:induction false} FewerIsLeft(a: seq<Evidence>, b: seq<Evidence>, index: nat)
    requires LeftOf(a, b) && index < |a|
    ensures LeftOf(Without(a, index), b)
    decreases |b|
  {
    LeftSplits(a, b);
    hide LeftOf, Without;
    var rest, last := b[..|b| - 1], b[|b| - 1];
    assert rest + [last] == b;
    if LeftOf(a, rest) {
      FewerIsLeft(a, rest, index);
      LongerIsLeft(Without(a, index), rest, last);
    } else {
      var front := a[..|a| - 1];
      WithoutSplits(a, index);
      if index < |a| - 1 {
        FewerIsLeft(front, rest, index);
        LongerIsLeft(Without(front, index), rest, last);
      } else {
        LongerIsLeft(front, rest, last);
      }
    }
  }

  lemma LeftSplits(a: seq<Evidence>, b: seq<Evidence>)
    requires LeftOf(a, b) && a != []
    ensures b != []
    ensures LeftOf(a, b[..|b| - 1]) || (a[|a| - 1] == b[|b| - 1] && LeftOf(a[..|a| - 1], b[..|b| - 1]))
  {
  }

  lemma WithoutSplits(a: seq<Evidence>, index: nat)
    requires index < |a|
    ensures index == |a| - 1 ==> Without(a, index) == a[..|a| - 1]
    ensures index < |a| - 1 ==> Without(a, index) == Without(a[..|a| - 1], index) + [a[|a| - 1]]
  {
  }

  lemma LongerIsLeft(a: seq<Evidence>, b: seq<Evidence>, e: Evidence)
    requires LeftOf(a, b)
    ensures LeftOf(a, b + [e]) && LeftOf(a + [e], b + [e])
  {
    assert (b + [e])[..|b|] == b && (a + [e])[..|a|] == a;
  }

  /** The log keeps rows whole and in order: all of them up to the cap, and the cap's number of them
      from there on. */
  lemma {:induction false} LogKeepsOrder(history: seq<Evidence>)
    ensures LeftOf(LogOf(history), history)
    ensures |history| <= 64 ==> LogOf(history) == history
    ensures |history| >= 64 ==> |LogOf(history)| == 64
    decreases |history|
  {
    if history != [] {
      var front, e := history[..|history| - 1], history[|history| - 1];
      hide LeftOf, Record;
      LogKeepsOrder(front);
      assert front + [e] == history;
      RecordKeepsOrder(LogOf(front), front, e);
    }
  }

  lemma RecordKeepsOrder(rows: seq<Evidence>, front: seq<Evidence>, e: Evidence)
    requires LeftOf(rows, front)
    ensures LeftOf(Record(rows, e), front + [e])
    ensures |rows| < 64 ==> Record(rows, e) == rows + [e]
    ensures |rows| == 64 ==> |Record(rows, e)| == 64
  {
    hide LeftOf;
    if |rows| == MAX_FRAMEWORK_EVIDENCE {
      var doomed := match OldestFrom(rows, 0) case Some(i) => i case None => 0;
      assert Evict(rows) == Without(rows, doomed);
      FewerIsLeft(rows, front, doomed);
      LongerIsLeft(Without(rows, doomed), front, e);
    } else {
      LongerIsLeft(rows, front, e);
    }
  }
}
