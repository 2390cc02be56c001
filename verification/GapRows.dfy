/** What `unreachable` says about rows, though it decides by lines
    (scripts/check-gap-state.py, 127-168 and 353-373). */
module GapRows {
  import opened GapTable
  import opened GapExplore

  /** The rows that match the last input of a run, at the point where it comes. */
  function LastMatch(t: Table, m: MState, i: Input): seq<nat> {
    var m0 := Observe(m, i.event);
    Match(t, m0.state, i.event, GuardsOf(t, m0, i))
  }

  /** The last step of the run selects row `k`, whatever comes of it. */
  ghost predicate SelectsRow(t: Table, run: seq<Input>, k: nat) {
    && Admissible(run) && run != []
    && Run(t, run[..|run| - 1]).Completed?
    && LastMatch(t, Run(t, run[..|run| - 1]).m, run[|run| - 1]) == [k]
  }

  ghost predicate RowSelected(t: Table, k: nat) {
    exists run :: SelectsRow(t, run, k)
  }

  ghost predicate LineSelected(t: Table, line: nat) {
    exists run :: Selects(t, run, line)
  }

  ghost predicate NeverBreaks(t: Table) {
    forall run :: !FailsOn(t, run)
  }

  lemma FireShowsLine(t: Table, m0: MState, i: Input, gs: Guards, row: Row)
    ensures var (m', o) := Fire(t, m0, i, gs, row);
            && (o.Done? ==> m'.history != [] && LastLine(m') == row.line)
            && (o.Impossible? ==> o.line == row.line)
  {
  }

  /** A step that does not break shows the line of the one row it selects. */
  lemma StepShowsLine(t: Table, m: MState, i: Input)
    ensures var (m', o) := Step(t, m, i);
            !o.Broken? ==>
              && |LastMatch(t, m, i)| == 1
              && (o.Done? ==> m'.history != [] && LastLine(m') == t.rows[LastMatch(t, m, i)[0]].line)
              && (o.Impossible? ==> o.line == t.rows[LastMatch(t, m, i)[0]].line)
  {
    var m0 := Observe(m, i.event);
    var found := LastMatch(t, m, i);
    if |found| == 1 {
      FireShowsLine(t, m0, i, GuardsOf(t, m0, i), t.rows[found[0]]);
    }
  }

  /** In a table no run breaks, a run that selects a row selects its line. */
  lemma RowShowsItsLine(t: Table, run: seq<Input>, k: nat)
    requires NeverBreaks(t) && SelectsRow(t, run, k)
    ensures k < |t.rows| && Selects(t, run, t.rows[k].line)
  {
    var m, i := Run(t, run[..|run| - 1]).m, run[|run| - 1];
    assert !FailsOn(t, run);
    assert Run(t, run) == Extend(t, m, i);
    StepShowsLine(t, m, i);
  }

  /** A line a run selects is the line of a row some run selects. */
  lemma {:induction false} LineComesFromARow(t: Table, run: seq<Input>, line: nat)
    requires Selects(t, run, line)
    ensures exists k: nat :: k < |t.rows| && t.rows[k].line == line && RowSelected(t, k)
    decreases |run|
  {
    assert run != [];
    var front, i := run[..|run| - 1], run[|run| - 1];
    if Run(t, front).Completed? {
      var m := Run(t, front).m;
      assert Run(t, run) == Extend(t, m, i);
      StepShowsLine(t, m, i);
      var k := LastMatch(t, m, i)[0];
      assert LastMatch(t, m, i) == [k];
      assert SelectsRow(t, run, k);
      assert RowSelected(t, k);
    } else {
      assert StoppedBy(t, front, line);
      LineComesFromARow(t, front, line);
    }
  }

  lemma LineIsSelectedByItsRows(t: Table, line: nat)
    requires NeverBreaks(t)
    ensures LineSelected(t, line) <==> exists k: nat :: k < |t.rows| && t.rows[k].line == line && RowSelected(t, k)
  {
    if run :| Selects(t, run, line) {
      LineComesFromARow(t, run, line);
    }
    if k: nat :| k < |t.rows| && t.rows[k].line == line && RowSelected(t, k) {
      var run :| SelectsRow(t, run, k);
      RowShowsItsLine(t, run, k);
    }
  }

  /** What `unreachable` lists. */
  ghost predicate Listed(t: Table, k: nat)
    requires k < |t.rows|
  {
    !Defensive(t.rows[k]) && !LineSelected(t, t.rows[k].line)
  }

  /** What it is there to find. */
  ghost predicate Dead(t: Table, k: nat)
    requires k < |t.rows|
  {
    !Defensive(t.rows[k]) && !RowSelected(t, k)
  }

  /** A dead row hides behind a selected one of the same line. */
  ghost predicate Hidden(t: Table, k: nat, j: nat)
    requires k < |t.rows| && j < |t.rows|
  {
    Dead(t, k) && RowSelected(t, j) && t.rows[j].line == t.rows[k].line
  }

  lemma ListedUnlessHidden(t: Table, k: nat)
    requires NeverBreaks(t) && k < |t.rows|
    ensures Listed(t, k) <==> Dead(t, k) && forall j: nat :: j < |t.rows| ==> !Hidden(t, k, j)
  {
    LineIsSelectedByItsRows(t, t.rows[k].line);
    if RowSelected(t, k) {
      assert t.rows[k].line == t.rows[k].line;
    }
    if Dead(t, k) && LineSelected(t, t.rows[k].line) {
      var j: nat :| j < |t.rows| && t.rows[j].line == t.rows[k].line && RowSelected(t, j);
      assert Hidden(t, k, j);
    }
  }

  /** `unreachable` lists exactly the dead rows if and only if no dead row shares its line with a
      selected one. */
  lemma ListIsExactUnlessHidden(t: Table)
    requires NeverBreaks(t)
    ensures (forall k: nat :: k < |t.rows| ==> (Listed(t, k) <==> Dead(t, k)))
            <==> (forall k: nat, j: nat :: k < |t.rows| && j < |t.rows| ==> !Hidden(t, k, j))
  {
    forall k: nat | k < |t.rows|
      ensures Listed(t, k) <==> Dead(t, k) && forall j: nat :: j < |t.rows| ==> !Hidden(t, k, j)
    {
      ListedUnlessHidden(t, k);
    }
  }

  /** Every row of the table has a line to itself: no row was written for every state. */
  ghost predicate OwnLines(t: Table) {
    forall j, k :: 0 <= j < k < |t.rows| ==> t.rows[j].line != t.rows[k].line
  }

  /** With one row to a line the list is exact. */
  lemma OwnLinesAreExact(t: Table)
    requires OwnLines(t) && NeverBreaks(t)
    ensures forall k: nat :: k < |t.rows| ==> (Listed(t, k) <==> Dead(t, k))
  {
    forall k: nat, j: nat | k < |t.rows| && j < |t.rows|
      ensures !Hidden(t, k, j)
    {
      assert j < k ==> t.rows[j].line != t.rows[k].line;
      assert k < j ==> t.rows[k].line != t.rows[j].line;
    }
    ListIsExactUnlessHidden(t);
  }

  lemma PassesByRow(t: Table)
    ensures Passes(t) <==> Total(t) && NeverBreaks(t) && forall k: nat :: k < |t.rows| ==> !Listed(t, k)
  {
    if Passes(t) {
      forall k: nat | k < |t.rows|
        ensures !Listed(t, k)
      {
        assert t.rows[k] in t.rows;
      }
    }
    if forall k: nat :: k < |t.rows| ==> !Listed(t, k) {
      forall r | r in t.rows
        ensures !Defensive(r) ==> exists run :: Selects(t, run, r.line)
      {
        var k: nat :| k < |t.rows| && t.rows[k] == r;
        assert !Listed(t, k);
      }
    }
  }

  /** ... and so is the command: it passes exactly the total tables that no run breaks and whose every row
      that is not defensive is selected by a run. */
  lemma CheckIsExactWithOwnLines(t: Table)
    requires OwnLines(t)
    ensures Passes(t) <==> Total(t) && NeverBreaks(t) && forall k: nat :: k < |t.rows| ==> !Dead(t, k)
  {
    PassesByRow(t);
    if NeverBreaks(t) {
      OwnLinesAreExact(t);
    }
  }

  // ----- twelve lines, each for every state -----

  /** The copy for the `i`-th state of the line of event `e`. */
  ghost predicate IsStarRow(row: Row, i: nat, e: Event)
    requires i < 5 && !e.Unlisted?
  {
    && row.state == STATES[i] && row.event == e && row.guards == map[]
    && row.next == STATES[i] && row.actions == [Noop] && row.line == EventNumber(e) + 1
  }

  /** `* | event | - | = | noop`, once for each of the twelve events, as the parser spreads it out. */
  ghost predicate IsStarTable(t: Table) {
    && |t.rows| == 60
    && (forall n: nat :: n < 60 ==> !t.rows[n].event.Unlisted? && EventNumber(t.rows[n].event) == n / 5)
    && (forall n: nat :: n < 60 ==> IsStarRow(t.rows[n], n % 5, t.rows[n].event))
  }

  lemma StarTableExists() returns (t: Table)
    ensures IsStarTable(t)
  {
    t := Table(seq(60, n requires 0 <= n < 60 => Row(STATES[n % 5], EVENTS[n / 5], map[], STATES[n % 5], [Noop], n / 5 + 1)), 0, 0);
    forall n: nat | n < 60
      ensures !t.rows[n].event.Unlisted? && EventNumber(t.rows[n].event) == n / 5
    {
      EventAt(n / 5);
    }
  }

  ghost predicate OnlyMatch(t: Table, s: State, e: Event, gs: Guards, k: nat) {
    k < |t.rows| && forall j: nat :: j < |t.rows| ==> (Matches(t.rows[j], s, e, gs) <==> j == k)
  }

  lemma {:induction false} OneMatch(t: Table, from: nat, s: State, e: Event, gs: Guards, k: nat)
    requires from <= |t.rows| && OnlyMatch(t, s, e, gs, k)
    ensures MatchFrom(t, from, s, e, gs) == if from <= k then [k] else []
    decreases |t.rows| - from
  {
    if from < |t.rows| {
      OneMatch(t, from + 1, s, e, gs, k);
      assert Matches(t.rows[from], s, e, gs) <==> from == k;
    }
  }

  lemma DistinctStates(i: nat, j: nat)
    requires i < 5 && j < 5 && STATES[i] == STATES[j]
    ensures i == j
  {
    assert STATES[0] == Clear && STATES[1] == Open && STATES[2] == Due && STATES[3] == Sending
           && STATES[4] == Requested;
  }

  function EventNumber(e: Event): (n: nat)
    requires !e.Unlisted?
    ensures n < 12 && EVENTS[n] == e
  {
    match e
    case LossSilent => 0
    case LossVoiced => 1
    case SdkUnknown => 2
    case CandidateStart => 3
    case FloorReleased => 4
    case BusyStart => 5
    case BusyEnd => 6
    case SendOk => 7
    case SendFailed => 8
    case RequestUndelivered => 9
    case EvidenceTurn => 10
    case SessionEnd => 11
  }

  lemma EventAt(n: nat)
    requires n < 12
    ensures !EVENTS[n].Unlisted? && EventNumber(EVENTS[n]) == n
  {
    assert EVENTS[0] == LossSilent && EVENTS[1] == LossVoiced && EVENTS[2] == SdkUnknown
           && EVENTS[3] == CandidateStart && EVENTS[4] == FloorReleased && EVENTS[5] == BusyStart
           && EVENTS[6] == BusyEnd && EVENTS[7] == SendOk && EVENTS[8] == SendFailed
           && EVENTS[9] == RequestUndelivered && EVENTS[10] == EvidenceTurn && EVENTS[11] == SessionEnd;
  }

  lemma StarRowAt(t: Table, i: nat, e: Event)
    requires IsStarTable(t) && i < 5 && !e.Unlisted?
    ensures IsStarRow(t.rows[5 * EventNumber(e) + i], i, e)
  {
    var k: nat := 5 * EventNumber(e) + i;
    assert k < 60 && k % 5 == i && k / 5 == EventNumber(e);
    assert EventNumber(t.rows[k].event) == EventNumber(e);
    assert EVENTS[EventNumber(e)] == e == t.rows[k].event;
  }

  /** The table selects one row for everything: the state's copy of the event's line. */
  lemma StarMatch(t: Table, i: nat, e: Event, gs: Guards)
    requires IsStarTable(t) && i < 5 && !e.Unlisted?
    ensures Match(t, STATES[i], e, gs) == [5 * EventNumber(e) + i]
  {
    var k: nat := 5 * EventNumber(e) + i;
    StarRowAt(t, i, e);
    assert Matches(t.rows[k], STATES[i], e, gs);
    forall j: nat | j < 60 && Matches(t.rows[j], STATES[i], e, gs)
      ensures j == k
    {
      assert IsStarRow(t.rows[j], j % 5, t.rows[j].event);
      DistinctStates(j % 5, i);
      assert EventNumber(t.rows[j].event) == j / 5;
    }
    OneMatch(t, 0, STATES[i], e, gs, k);
  }

  ghost predicate AtRest(m: MState) {
    m.state == Clear && !m.debt
  }

  lemma RestFire(t: Table, m0: MState, i: Input, gs: Guards, row: Row)
    requires AtRest(m0) && row.actions == [Noop] && row.next == Clear
    ensures Fire(t, m0, i, gs, row).1.Done? && AtRest(Fire(t, m0, i, gs, row).0)
  {
    var m1 := Note(m0, i, gs);
    assert [Noop][1..] == [];
    assert ApplyAll(t, m1, [Noop], m0.state, gs) == (m1, true);
  }

  /** Nothing ever happens: from CLEAR every admissible input is a no-op that stays there. */
  lemma StarStep(t: Table, m: MState, i: Input)
    requires IsStarTable(t) && AtRest(m) && AdmissibleInput(i)
    ensures LastMatch(t, m, i) == [5 * EventNumber(i.event)]
    ensures Step(t, m, i).1.Done? && AtRest(Step(t, m, i).0)
  {
    var m0 := Observe(m, i.event);
    assert STATES[0] == Clear;
    StarMatch(t, 0, i.event, GuardsOf(t, m0, i));
    StarRowAt(t, 0, i.event);
    RestFire(t, m0, i, GuardsOf(t, m0, i), t.rows[5 * EventNumber(i.event)]);
  }

  lemma {:induction false} StarRun(t: Table, run: seq<Input>)
    requires IsStarTable(t) && Admissible(run)
    ensures Run(t, run).Completed? && AtRest(Run(t, run).m)
    decreases |run|
  {
    if run != [] {
      var front, i := run[..|run| - 1], run[|run| - 1];
      StarRun(t, front);
      StarStep(t, Run(t, front).m, i);
      assert Run(t, run) == Extend(t, Run(t, front).m, i);
    }
  }

  lemma StarNeverBreaks(t: Table)
    requires IsStarTable(t)
    ensures NeverBreaks(t)
  {
    forall run: seq<Input>
      ensures !FailsOn(t, run)
    {
      if Admissible(run) {
        StarRun(t, run);
      }
    }
  }

  lemma StarLineIsSelected(t: Table, e: Event)
    requires IsStarTable(t) && !e.Unlisted?
    ensures LineSelected(t, EventNumber(e) + 1)
  {
    var i := Input(e, "n1", false);
    var run := [i];
    assert run[..0] == [];
    StarStep(t, Init(), i);
    assert SelectsRow(t, run, 5 * EventNumber(e));
    StarNeverBreaks(t);
    RowShowsItsLine(t, run, 5 * EventNumber(e));
    StarRowAt(t, 0, e);
  }

  lemma LastStepIsForClear(t: Table, run: seq<Input>)
    requires IsStarTable(t) && Admissible(run) && run != []
    ensures Run(t, run[..|run| - 1]).Completed?
    ensures !run[|run| - 1].event.Unlisted?
    ensures var found := LastMatch(t, Run(t, run[..|run| - 1]).m, run[|run| - 1]);
            |found| == 1 && found[0] % 5 == 0
  {
    var front, i := run[..|run| - 1], run[|run| - 1];
    StarRun(t, front);
    StarStep(t, Run(t, front).m, i);
    assert LastMatch(t, Run(t, front).m, i)[0] == 5 * EventNumber(i.event);
  }

  lemma OnlyClearIsSelected(t: Table, run: seq<Input>, k: nat)
    requires IsStarTable(t) && SelectsRow(t, run, k)
    ensures k % 5 == 0
  {
    LastStepIsForClear(t, run);
    assert [k][0] % 5 == 0;
  }

  lemma OthersAreDead(t: Table, k: nat)
    requires IsStarTable(t) && k % 5 != 0
    ensures !RowSelected(t, k)
  {
    if RowSelected(t, k) {
      var run: seq<Input> :| SelectsRow(t, run, k);
      OnlyClearIsSelected(t, run, k);
    }
  }

  lemma StarIsTotal(t: Table)
    requires IsStarTable(t)
    ensures Total(t)
  {
    forall s: State, e: Event, gs: Guards | !e.Unlisted?
      ensures |Match(t, s, e, gs)| == 1
    {
      EveryStateListed(s);
      var i :| 0 <= i < |STATES| && STATES[i] == s;
      StarMatch(t, i, e, gs);
    }
  }

  /** The input on which lines and rows differ: the command passes the table, yet no run ever selects the
      forty-eight of its sixty rows that are not for CLEAR, and none of them is listed. */
  lemma StarTablePassesWithDeadRows() returns (t: Table)
    ensures IsStarTable(t) && Parsed(t) && Passes(t)
    ensures forall k: nat :: k < 60 && k % 5 != 0 ==> Dead(t, k) && !Listed(t, k)
  {
    t := StarTableExists();
    forall n: nat | n < 60
      ensures !Listed(t, n) && !Defensive(t.rows[n])
    {
      assert IsStarRow(t.rows[n], n % 5, t.rows[n].event);
      StarLineIsSelected(t, t.rows[n].event);
    }
    StarIsTotal(t);
    StarNeverBreaks(t);
    PassesByRow(t);
    forall k: nat | k < 60 && k % 5 != 0
      ensures Dead(t, k)
    {
      OthersAreDead(t, k);
    }
  }
}
