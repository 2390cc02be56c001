/** Validating a gap table and exploring the machine it drives
    (scripts/check-gap-state.py, 179-202, 308-373 and 480-503). */
module GapExplore {
  import opened GapTable
  import Decimal

  // ----- validate -----

  datatype Problem =
    | Ambiguous(state: State, event: Event, guards: Guards, rows: nat)
    | NeverSelected(line: nat)

  /** The n-th of the 128 guard assignments, False before True, `dup` most significant. */
  function Assignment(n: nat): Guards {
    var high, low := n / 16, n % 16;
    Guards(high / 4 % 2 == 1, high / 2 % 2 == 1, high % 2 == 1,
           low / 8 == 1, low / 4 % 2 == 1, low / 2 % 2 == 1, low % 2 == 1)
  }

  function High(gs: Guards): nat {
    (if gs.dup then 4 else 0) + (if gs.busy then 2 else 0) + (if gs.candidateActive then 1 else 0)
  }

  function Low(gs: Guards): nat {
    (if gs.budgetLeft then 8 else 0) + (if gs.attemptsLeft then 4 else 0)
    + (if gs.postSend then 2 else 0) + (if gs.lateLoss then 1 else 0)
  }

  lemma HighBits(gs: Guards)
    ensures High(gs) / 4 % 2 == 1 <==> gs.dup
    ensures High(gs) / 2 % 2 == 1 <==> gs.busy
    ensures High(gs) % 2 == 1 <==> gs.candidateActive
  {
  }

  lemma LowBits(gs: Guards)
    ensures Low(gs) / 8 == 1 <==> gs.budgetLeft
    ensures Low(gs) / 4 % 2 == 1 <==> gs.attemptsLeft
    ensures Low(gs) / 2 % 2 == 1 <==> gs.postSend
    ensures Low(gs) % 2 == 1 <==> gs.lateLoss
  {
  }

  lemma EveryAssignmentListed(gs: Guards)
    ensures 0 <= 16 * High(gs) + Low(gs) < 128 && Assignment(16 * High(gs) + Low(gs)) == gs
  {
    HighBits(gs);
    LowBits(gs);
    var n, high, low := 16 * High(gs) + Low(gs), High(gs), Low(gs);
    assert n / 16 == high && n % 16 == low;
  }

  lemma EveryStateListed(s: State)
    ensures s in STATES
  {
    assert STATES[0] == Clear && STATES[1] == Open && STATES[2] == Due && STATES[3] == Sending
           && STATES[4] == Requested;
  }

  lemma EveryEventListed(e: Event)
    ensures e in EVENTS <==> !e.Unlisted?
  {
    assert EVENTS[0] == LossSilent && EVENTS[1] == LossVoiced && EVENTS[2] == SdkUnknown
           && EVENTS[3] == CandidateStart && EVENTS[4] == FloorReleased && EVENTS[5] == BusyStart
           && EVENTS[6] == BusyEnd && EVENTS[7] == SendOk && EVENTS[8] == SendFailed
           && EVENTS[9] == RequestUndelivered && EVENTS[10] == EvidenceTurn && EVENTS[11] == SessionEnd;
  }

  /** Every state, listed event and guard assignment selects exactly one row. */
  ghost predicate Total(t: Table) {
    forall s: State, e: Event, gs: Guards :: !e.Unlisted? ==> |Match(t, s, e, gs)| == 1
  }

  ghost predicate Selectable(t: Table, k: nat) {
    exists s: State, e: Event, gs: Guards :: !e.Unlisted? && Match(t, s, e, gs) == [k]
  }

  ghost predicate CellDecided(t: Table, s: State, e: Event) {
    forall gs: Guards :: |Match(t, s, e, gs)| == 1
  }

  ghost predicate CellPicked(t: Table, s: State, e: Event, picked: set<nat>) {
    forall gs: Guards :: |Match(t, s, e, gs)| == 1 ==> Match(t, s, e, gs)[0] in picked
  }

  ghost predicate AssignmentDecided(t: Table, s: State, e: Event, n: nat) {
    |Match(t, s, e, Assignment(n))| == 1
  }

  ghost predicate AssignmentPicked(t: Table, s: State, e: Event, n: nat, picked: set<nat>) {
    AssignmentDecided(t, s, e, n) ==> Match(t, s, e, Assignment(n))[0] in picked
  }

  lemma CellByAssignments(t: Table, s: State, e: Event)
    ensures CellDecided(t, s, e) <==> forall n: nat :: n < 128 ==> AssignmentDecided(t, s, e, n)
  {
    if forall n: nat :: n < 128 ==> AssignmentDecided(t, s, e, n) {
      forall gs: Guards
        ensures |Match(t, s, e, gs)| == 1
      {
        var n := NumberOf(gs);
        assert AssignmentDecided(t, s, e, n);
      }
    }
  }

  lemma CellPickedByAssignments(t: Table, s: State, e: Event, picked: set<nat>)
    requires forall n: nat :: n < 128 ==> AssignmentPicked(t, s, e, n, picked)
    ensures CellPicked(t, s, e, picked)
  {
    forall gs: Guards | |Match(t, s, e, gs)| == 1
      ensures Match(t, s, e, gs)[0] in picked
    {
      var n := NumberOf(gs);
      assert AssignmentPicked(t, s, e, n, picked);
    }
  }

  lemma NumberOf(gs: Guards) returns (n: nat)
    ensures n < 128 && Assignment(n) == gs
  {
    EveryAssignmentListed(gs);
    n := 16 * High(gs) + Low(gs);
  }

  lemma PickedGrows(t: Table, s: State, e: Event, n: nat, picked: set<nat>, more: set<nat>)
    requires forall k: nat :: k < n ==> AssignmentPicked(t, s, e, k, picked)
    requires AssignmentPicked(t, s, e, n, more)
    ensures forall k: nat :: k < n + 1 ==> AssignmentPicked(t, s, e, k, picked + more)
  {
    forall k: nat | k < n + 1
      ensures AssignmentPicked(t, s, e, k, picked + more)
    {
      assert k < n ==> AssignmentPicked(t, s, e, k, picked);
    }
  }

  /** One state and event under one assignment. */
  method ScanOne(t: Table, s: State, e: Event, n: nat) returns (found: seq<Problem>, picked: set<nat>)
    requires !e.Unlisted?
    ensures found == [] <==> AssignmentDecided(t, s, e, n)
    ensures forall k <- picked :: Selectable(t, k)
    ensures AssignmentPicked(t, s, e, n, picked)
  {
    var rows := Match(t, s, e, Assignment(n));
    if |rows| == 1 {
      assert rows == [rows[0]];
      return [], {rows[0]};
    }
    return [Ambiguous(s, e, Assignment(n), |rows|)], {};
  }

  /** One state and event under all 128 assignments. */
  method ScanAssignments(t: Table, s: State, e: Event) returns (found: seq<Problem>, picked: set<nat>)
    requires !e.Unlisted?
    ensures found == [] <==> CellDecided(t, s, e)
    ensures forall k <- picked :: Selectable(t, k)
    ensures CellPicked(t, s, e, picked)
  {
    found, picked := [], {};
    for n := 0 to 128
      invariant found == [] <==> forall k: nat :: k < n ==> AssignmentDecided(t, s, e, k)
      invariant forall k <- picked :: Selectable(t, k)
      invariant forall k: nat :: k < n ==> AssignmentPicked(t, s, e, k, picked)
    {
      var more, rows := ScanOne(t, s, e, n);
      PickedGrows(t, s, e, n, picked, rows);
      found, picked := found + more, picked + rows;
    }
    CellByAssignments(t, s, e);
    CellPickedByAssignments(t, s, e, picked);
  }

  lemma TotalByCells(t: Table)
    ensures Total(t) <==> forall i, j :: 0 <= i < |STATES| && 0 <= j < |EVENTS| ==> CellDecided(t, STATES[i], EVENTS[j])
  {
    if Total(t) {
      forall i, j | 0 <= i < |STATES| && 0 <= j < |EVENTS|
        ensures CellDecided(t, STATES[i], EVENTS[j])
      {
        EveryEventListed(EVENTS[j]);
      }
    }
    if forall i, j :: 0 <= i < |STATES| && 0 <= j < |EVENTS| ==> CellDecided(t, STATES[i], EVENTS[j]) {
      forall s: State, e: Event, gs: Guards | !e.Unlisted?
        ensures |Match(t, s, e, gs)| == 1
      {
        var i, j := Positions(s, e);
        assert CellDecided(t, STATES[i], EVENTS[j]);
      }
    }
  }

  lemma Positions(s: State, e: Event) returns (i: nat, j: nat)
    requires !e.Unlisted?
    ensures i < |STATES| && STATES[i] == s && j < |EVENTS| && EVENTS[j] == e
  {
    EveryStateListed(s);
    EveryEventListed(e);
    i :| 0 <= i < |STATES| && STATES[i] == s;
    j :| 0 <= j < |EVENTS| && EVENTS[j] == e;
  }

  lemma PickedIsSelectable(t: Table, selected: set<nat>)
    requires forall k <- selected :: Selectable(t, k)
    requires forall i, j :: 0 <= i < |STATES| && 0 <= j < |EVENTS| ==> CellPicked(t, STATES[i], EVENTS[j], selected)
    ensures forall k :: k in selected <==> Selectable(t, k)
  {
    forall k: nat | Selectable(t, k)
      ensures k in selected
    {
      var s: State, e: Event, gs: Guards :| !e.Unlisted? && Match(t, s, e, gs) == [k];
      var i, j := Positions(s, e);
      assert CellPicked(t, STATES[i], EVENTS[j], selected);
    }
  }

  /** One state under every listed event. */
  method ScanEvents(t: Table, s: State, events: seq<Event>) returns (found: seq<Problem>, picked: set<nat>)
    requires forall e <- events :: !e.Unlisted?
    ensures found == [] <==> forall j :: 0 <= j < |events| ==> CellDecided(t, s, events[j])
    ensures forall k <- picked :: Selectable(t, k)
    ensures forall j :: 0 <= j < |events| ==> CellPicked(t, s, events[j], picked)
  {
    found, picked := [], {};
    for j := 0 to |events|
      invariant found == [] <==> forall j' :: 0 <= j' < j ==> CellDecided(t, s, events[j'])
      invariant forall k <- picked :: Selectable(t, k)
      invariant forall j' :: 0 <= j' < j ==> CellPicked(t, s, events[j'], picked)
    {
      var more, rows := ScanAssignments(t, s, events[j]);
      found, picked := found + more, picked + rows;
    }
  }

  method ScanStates(t: Table, states: seq<State>, events: seq<Event>)
    returns (found: seq<Problem>, picked: set<nat>, combos: nat)
    requires forall e <- events :: !e.Unlisted?
    ensures combos == |states| * (|events| * 128)
    ensures found == [] <==> forall i, j :: 0 <= i < |states| && 0 <= j < |events| ==> CellDecided(t, states[i], events[j])
    ensures forall k <- picked :: Selectable(t, k)
    ensures forall i, j :: 0 <= i < |states| && 0 <= j < |events| ==> CellPicked(t, states[i], events[j], picked)
  {
    found, picked, combos := [], {}, 0;
    for i := 0 to |states|
      invariant combos == i * (|events| * 128)
      invariant found == [] <==> forall i', j :: 0 <= i' < i && 0 <= j < |events| ==> CellDecided(t, states[i'], events[j])
      invariant forall k <- picked :: Selectable(t, k)
      invariant forall i', j :: 0 <= i' < i && 0 <= j < |events| ==> CellPicked(t, states[i'], events[j], picked)
    {
      var more, rows := ScanEvents(t, states[i], events);
      found, picked, combos := found + more, picked + rows, combos + |events| * 128;
    }
  }

  /** `validate`: no problem exactly when the table is total and every row can be selected. */
  method Validate(t: Table) returns (problems: seq<Problem>, combos: nat)
    ensures combos == 5 * 12 * 128
    ensures problems == [] <==> Total(t) && forall k :: 0 <= k < |t.rows| ==> Selectable(t, k)
  {
    forall e <- EVENTS
      ensures !e.Unlisted?
    {
      EveryEventListed(e);
    }
    var selected;
    problems, selected, combos := ScanStates(t, STATES, EVENTS);
    TotalByCells(t);
    PickedIsSelectable(t, selected);
    for k := 0 to |t.rows|
      invariant problems == [] <==> Total(t) && forall r :: 0 <= r < k ==> Selectable(t, r)
    {
      if k !in selected {
        problems := problems + [NeverSelected(t.rows[k].line)];
      }
    }
  }

  /** The assignment that grants a row exactly what its literals ask. */
  function Satisfying(row: Row): Guards {
    Guards(Dup in row.guards && row.guards[Dup], Busy in row.guards && row.guards[Busy],
           CandidateActive in row.guards && row.guards[CandidateActive],
           BudgetLeft in row.guards && row.guards[BudgetLeft],
           AttemptsLeft in row.guards && row.guards[AttemptsLeft],
           PostSend in row.guards && row.guards[PostSend],
           LateLoss in row.guards && row.guards[LateLoss])
  }

  /** In a total table no row is dead, so the second half of `validate` never adds a problem of its
      own: two rows that overlap are already an ambiguity. */
  lemma TotalTablesHaveNoDeadRow(t: Table, k: nat)
    requires Parsed(t) && Total(t) && k < |t.rows|
    ensures Selectable(t, k)
  {
    var row := t.rows[k];
    var gs := Satisfying(row);
    forall g <- row.guards
      ensures Value(gs, g) == row.guards[g]
    {
      match g
      case Dup =>
      case _ =>
    }
    MatchFromFindsAll(t, 0, row.state, row.event, gs, k);
    assert |Match(t, row.state, row.event, gs)| == 1;
    assert Match(t, row.state, row.event, gs) == [k];
  }

  // ----- explore -----

  /** The runs the exploration speaks for: listed events only, an id on every voiced loss, and
      `postSend` only on evidence of a turn. */
  predicate AdmissibleInput(i: Input) {
    && !i.event.Unlisted?
    && (i.event == LossVoiced ==> i.ident != "")
    && (i.postSend ==> i.event == EvidenceTurn)
  }

  ghost predicate Admissible(run: seq<Input>) {
    forall k :: 0 <= k < |run| ==> AdmissibleInput(run[k])
  }

  datatype Key = Key(state: State, busy: bool, candidateActive: bool, late: bool, attempts: nat,
                     requests: nat, anySeen: bool)

  function KeyOf(m: MState): Key {
    Key(m.state, m.busy, m.candidateActive, m.late, m.attempts, m.requests, m.seen != {})
  }

  /** Every key within the caps: the reason the exploration ends. */
  ghost function AllKeys(t: Table): set<Key> {
    set s: State, b: bool, c: bool, l: bool, a: nat, r: nat, n: bool
      | 0 <= a <= t.episodeAttempts && 0 <= r <= t.sessionRequests :: Key(s, b, c, l, a, r, n)
  }

  /** Two machines that differ only in which ids they have seen and in their history. */
  ghost predicate Alike(m1: MState, m2: MState) {
    && m1.state == m2.state && m1.busy == m2.busy && m1.debt == m2.debt && m1.late == m2.late
    && m1.candidateActive == m2.candidateActive && m1.attempts == m2.attempts
    && m1.requests == m2.requests && (m1.seen == {} <==> m2.seen == {})
  }

  lemma AlikeByKey(t: Table, m1: MState, m2: MState)
    requires Sound(t, m1) && Sound(t, m2)
    ensures KeyOf(m1) == KeyOf(m2) <==> Alike(m1, m2)
  {
  }

  /** The same verdict, from machines that stay alike. */
  ghost predicate SameVerdict(r1: (MState, bool), r2: (MState, bool)) {
    Alike(r1.0, r2.0) && r1.1 == r2.1
  }

  lemma SendAlike(t: Table, m1: MState, m2: MState, before: State, gs: Guards)
    requires Alike(m1, m2)
    ensures SameVerdict(ApplySend(t, m1, before, gs), ApplySend(t, m2, before, gs))
  {
  }

  lemma CommitAlike(t: Table, m1: MState, m2: MState, before: State)
    requires Alike(m1, m2)
    ensures SameVerdict(ApplyCommit(t, m1, before), ApplyCommit(t, m2, before))
  {
  }

  lemma EndAlike(m1: MState, m2: MState, before: State)
    requires Alike(m1, m2)
    ensures SameVerdict(EndEpisode(m1, before), EndEpisode(m2, before))
  {
  }

  lemma PlainAlike(m1: MState, m2: MState, a: Action)
    requires Alike(m1, m2)
    ensures Alike(ApplyPlain(m1, a), ApplyPlain(m2, a))
  {
  }

  lemma ApplyAlike(t: Table, m1: MState, m2: MState, a: Action, before: State, gs: Guards)
    requires Alike(m1, m2)
    ensures SameVerdict(Apply(t, m1, a, before, gs), Apply(t, m2, a, before, gs))
  {
    if a == SendRequest {
      SendAlike(t, m1, m2, before, gs);
    } else if a == CommitRequest {
      CommitAlike(t, m1, m2, before);
    } else if EndsEpisode(a) {
      EndAlike(m1, m2, before);
    } else {
      PlainAlike(m1, m2, a);
    }
  }

  lemma {:induction false} ApplyAllAlike(t: Table, m1: MState, m2: MState, actions: seq<Action>, before: State, gs: Guards)
    requires Alike(m1, m2)
    ensures SameVerdict(ApplyAll(t, m1, actions, before, gs), ApplyAll(t, m2, actions, before, gs))
    decreases |actions|
  {
    if actions != [] {
      var (n1, ok1) := Apply(t, m1, actions[0], before, gs);
      var (n2, ok2) := Apply(t, m2, actions[0], before, gs);
      ApplyAlike(t, m1, m2, actions[0], before, gs);
      if ok1 {
        ApplyAllAlike(t, n1, n2, actions[1..], before, gs);
      }
    }
  }

  function LastLine(m: MState): nat
    requires m.history != []
  {
    m.history[|m.history| - 1].line
  }

  /** Two steps that end the same way, with the same row recorded if they completed. */
  ghost predicate SameEnding(r1: (MState, Outcome), r2: (MState, Outcome)) {
    && Alike(r1.0, r2.0) && r1.1 == r2.1
    && (r1.1.Done? ==> r1.0.history != [] && r2.0.history != [] && LastLine(r1.0) == LastLine(r2.0))
  }

  /** The state and the verdict a row's last lines leave, apart from the history. */
  lemma FinishEnds(m: MState, before: State, e: Event, row: Row)
    ensures var (m', o) := Finish(m, before, e, row);
            && Alike(m', m.(state := row.next))
            && (o == Done(row.next, row.actions) || o == Broken)
            && (o.Broken? <==> m.debt != (row.next != Clear) || (SendRequest in row.actions && row.next != Sending))
            && (o.Done? ==> m'.history != [] && LastLine(m') == row.line)
  {
  }

  lemma FinishAlike(m1: MState, m2: MState, before: State, e: Event, row: Row)
    requires Alike(m1, m2)
    ensures SameEnding(Finish(m1, before, e, row), Finish(m2, before, e, row))
  {
    FinishEnds(m1, before, e, row);
    FinishEnds(m2, before, e, row);
  }

  lemma FireAlike(t: Table, m1: MState, m2: MState, i1: Input, i2: Input, gs: Guards, row: Row)
    requires Alike(m1, m2) && i1.event == i2.event
    ensures SameEnding(Fire(t, m1, i1, gs, row), Fire(t, m2, i2, gs, row))
  {
    var n1, n2 := Note(m1, i1, gs), Note(m2, i2, gs);
    ApplyAllAlike(t, n1, n2, row.actions, m1.state, gs);
    FinishAlike(ApplyAll(t, n1, row.actions, m1.state, gs).0, ApplyAll(t, n2, row.actions, m1.state, gs).0,
                m1.state, i1.event, row);
  }

  lemma ObserveAlike(t: Table, m1: MState, m2: MState, i1: Input, i2: Input)
    requires Alike(m1, m2)
    requires i1.event == i2.event && i1.postSend == i2.postSend && IsDup(m1, i1) == IsDup(m2, i2)
    ensures Alike(Observe(m1, i1.event), Observe(m2, i2.event))
    ensures GuardsOf(t, Observe(m1, i1.event), i1) == GuardsOf(t, Observe(m2, i2.event), i2)
  {
  }

  /** The abstraction is exact: alike machines given the same kind of event end alike. */
  lemma StepAlike(t: Table, m1: MState, m2: MState, i1: Input, i2: Input)
    requires Alike(m1, m2)
    requires AdmissibleInput(i1) && AdmissibleInput(i2)
    requires i1.event == i2.event && i1.postSend == i2.postSend && IsDup(m1, i1) == IsDup(m2, i2)
    ensures SameEnding(Step(t, m1, i1), Step(t, m2, i2))
  {
    var n1, n2 := Observe(m1, i1.event), Observe(m2, i2.event);
    ObserveAlike(t, m1, m2, i1, i2);
    var gs := GuardsOf(t, n1, i1);
    var found := Match(t, n1.state, i1.event, gs);
    if |found| == 1 {
      FireAlike(t, n1, n2, i1, i2, gs, t.rows[found[0]]);
    }
  }

  datatype Coverage = Coverage(known: set<Key>, reached: set<nat>, impossible: set<nat>)

  ghost predicate Within(c: Coverage, c': Coverage) {
    c.known <= c'.known && c.reached <= c'.reached && c.impossible <= c'.impossible
  }

  ghost predicate Covers(t: Table, m: MState, i: Input, c: Coverage) {
    var r := Step(t, m, i);
    match r.1
    case Done(_, _) => KeyOf(r.0) in c.known && r.0.history != [] && LastLine(r.0) in c.reached
    case Impossible(line) => line in c.impossible
    case Broken => false
  }

  ghost predicate Expanded(t: Table, m: MState, c: Coverage) {
    forall i: Input :: AdmissibleInput(i) ==> Covers(t, m, i, c)
  }

  /** The ids an exploration invents. */
  function Name(k: nat): (name: string)
    ensures name != ""
  {
    "n" + Decimal.OfNat(k)
  }

  ghost predicate SeenBelow(m: MState, counter: nat) {
    forall x <- m.seen :: exists k: nat :: k <= counter && x == Name(k)
  }

  lemma NextNameIsFresh(m: MState, counter: nat)
    requires SeenBelow(m, counter)
    ensures Name(counter + 1) !in m.seen
  {
    if Name(counter + 1) in m.seen {
      var k: nat :| k <= counter && Name(counter + 1) == Name(k);
      assert Name(counter + 1)[1..] == Decimal.OfNat(counter + 1) && Name(k)[1..] == Decimal.OfNat(k);
      Decimal.Injective(counter + 1, k);
    }
  }

  ghost predicate KeyExpanded(t: Table, k: Key, c: Coverage) {
    exists m: MState, counter: nat ::
      KeyOf(m) == k && Sound(t, m) && SeenBelow(m, counter) && Expanded(t, m, c)
  }

  lemma KeyExpandedGrows(t: Table, k: Key, c: Coverage, c': Coverage)
    requires KeyExpanded(t, k, c) && Within(c, c')
    ensures KeyExpanded(t, k, c')
  {
    var m: MState, counter: nat :|
      KeyOf(m) == k && Sound(t, m) && SeenBelow(m, counter) && Expanded(t, m, c);
    forall i: Input | AdmissibleInput(i)
      ensures Covers(t, m, i, c')
    {
      assert Covers(t, m, i, c);
    }
    assert Expanded(t, m, c');
  }

  lemma CoversAlike(t: Table, m1: MState, i1: Input, m2: MState, i2: Input, c: Coverage)
    requires Covers(t, m1, i1, c) && Alike(m1, m2)
    requires AdmissibleInput(i1) && AdmissibleInput(i2)
    requires i1.event == i2.event && i1.postSend == i2.postSend && IsDup(m1, i1) == IsDup(m2, i2)
    ensures Covers(t, m2, i2, c)
  {
    StepAlike(t, m1, m2, i1, i2);
  }

  // What runs show.

  ghost predicate ReachedBy(t: Table, run: seq<Input>, line: nat) {
    && Admissible(run) && Run(t, run).Completed?
    && Run(t, run).m.history != [] && LastLine(Run(t, run).m) == line
  }

  ghost predicate StoppedBy(t: Table, run: seq<Input>, line: nat) {
    Admissible(run) && Run(t, run) == Stopped(line)
  }

  ghost predicate FailsOn(t: Table, run: seq<Input>) {
    Admissible(run) && Run(t, run) == Failed
  }

  ghost predicate CompletesAt(t: Table, run: seq<Input>, m: MState) {
    Admissible(run) && Run(t, run) == Completed(m)
  }

  /** Every line recorded is one some admissible run selects. */
  ghost predicate Truthful(t: Table, c: Coverage) {
    && (forall line <- c.reached :: exists run :: ReachedBy(t, run, line))
    && (forall line <- c.impossible :: exists run :: StoppedBy(t, run, line))
  }

  ghost predicate Good(t: Table, m: MState, counter: nat) {
    Sound(t, m) && SeenBelow(m, counter) && exists run :: CompletesAt(t, run, m)
  }

  lemma ExtendRun(t: Table, m: MState, i: Input) returns (run: seq<Input>)
    requires exists r :: CompletesAt(t, r, m)
    requires AdmissibleInput(i)
    ensures Admissible(run) && run != [] && Run(t, run) == Extend(t, m, i)
  {
    var r :| CompletesAt(t, r, m);
    run := r + [i];
    assert run[..|run| - 1] == r;
  }

  // The worklist.

  ghost predicate QueueGood(t: Table, queue: seq<Machine>, c: Coverage, counter: nat)
    reads queue
  {
    forall q :: 0 <= q < |queue| ==>
      && queue[q].table == t && Good(t, queue[q].View(), counter)
      && KeyOf(queue[q].View()) in c.known
  }

  ghost predicate Pending(queue: seq<Machine>, k: Key)
    reads queue
  {
    exists q :: 0 <= q < |queue| && KeyOf(queue[q].View()) == k
  }

  ghost predicate Inv(t: Table, queue: seq<Machine>, c: Coverage, counter: nat, current: set<Key>)
    reads queue
  {
    && QueueGood(t, queue, c, counter) && Truthful(t, c)
    && c.known <= AllKeys(t) && KeyOf(Init()) in c.known
    && forall k <- c.known :: KeyExpanded(t, k, c) || Pending(queue, k) || k in current
  }

  datatype Variant = Variant(isNew: bool, postSend: bool)

  function Variants(event: Event, anySeen: bool): (vs: seq<Variant>)
    ensures forall k :: 0 <= k < |vs| ==>
              && (vs[k].postSend ==> event == EvidenceTurn)
              && (event == LossVoiced && !vs[k].isNew ==> anySeen)
  {
    match event
    case LossVoiced => [Variant(true, false)] + if anySeen then [Variant(false, false)] else []
    case EvidenceTurn => [Variant(true, true), Variant(true, false)]
    case _ => [Variant(true, false)]
  }

  ghost predicate Instance(m: MState, i: Input, event: Event, v: Variant) {
    && AdmissibleInput(i) && i.event == event && i.postSend == v.postSend
    && IsDup(m, i) == (event == LossVoiced && !v.isNew)
  }

  ghost predicate VariantCovered(t: Table, m: MState, event: Event, v: Variant, c: Coverage) {
    forall i: Input :: Instance(m, i, event, v) ==> Covers(t, m, i, c)
  }

  lemma VariantsAreAll(t: Table, m: MState, event: Event, vs: seq<Variant>, c: Coverage, i: Input)
    requires vs == Variants(event, m.seen != {})
    requires AllCovered(t, m, event, vs, c)
    requires AdmissibleInput(i) && i.event == event
    ensures Covers(t, m, i, c)
  {
    if event == LossVoiced && i.ident in m.seen {
      assert Instance(m, i, event, vs[1]);
    } else if event == EvidenceTurn && !i.postSend {
      assert Instance(m, i, event, vs[1]);
    } else {
      assert Instance(m, i, event, vs[0]);
    }
  }

  /** A clone of `base`, stepped by one variant of `event`. */
  method TryVariant(t: Table, base: Machine, event: Event, v: Variant, counter: nat)
    returns (machine: Machine, outcome: Outcome, next: nat, ghost input: Input)
    requires base.table == t && Good(t, base.View(), counter)
    requires !event.Unlisted? && (v.postSend ==> event == EvidenceTurn)
    requires event == LossVoiced && !v.isNew ==> base.seen != {}
    ensures fresh(machine) && machine.table == t && next >= counter
    ensures Instance(base.View(), input, event, v)
    ensures (machine.View(), outcome) == Step(t, base.View(), input)
    ensures outcome.Done? ==> Good(t, machine.View(), next) && machine.history != []
  {
    machine := base.Clone();
    var ident := "";
    next := counter;
    if event == LossVoiced {
      next := next + 1;
      if v.isNew {
        ident := Name(next);
        NextNameIsFresh(base.View(), counter);
      } else {
        ident :| ident in base.seen;
      }
    }
    input := Input(event, ident, v.postSend);
    outcome := machine.StepEvent(event, ident, v.postSend);
    if outcome.Done? {
      var run := ExtendRun(t, base.View(), input);
      assert CompletesAt(t, run, machine.View());
      CompletedRunIsSafe(t, run);
      StepSees(t, base.View(), input);
      StepAlike(t, base.View(), base.View(), input, input);
      forall x <- machine.seen
        ensures exists k: nat :: k <= next && x == Name(k)
      {
        if x !in base.seen {
          assert x == Name(next);
        }
      }
    }
  }

  lemma StepSees(t: Table, m: MState, i: Input)
    requires Step(t, m, i).1.Done?
    ensures Step(t, m, i).0.seen == if i.event == LossVoiced then m.seen + {i.ident} else m.seen
  {
    var m0 := Observe(m, i.event);
    var gs := GuardsOf(t, m0, i);
    var row := t.rows[Match(t, m0.state, i.event, gs)[0]];
    ApplyAllSees(t, Note(m0, i, gs), row.actions, m0.state, gs);
  }

  lemma {:induction false} ApplyAllSees(t: Table, m: MState, actions: seq<Action>, before: State, gs: Guards)
    ensures ApplyAll(t, m, actions, before, gs).0.seen == m.seen
    decreases |actions|
  {
    if actions != [] {
      ApplySees(t, m, actions[0], before, gs);
      ApplyAllSees(t, Apply(t, m, actions[0], before, gs).0, actions[1..], before, gs);
    }
  }

  lemma ApplySees(t: Table, m: MState, a: Action, before: State, gs: Guards)
    ensures Apply(t, m, a, before, gs).0.seen == m.seen
  {
  }

  /** Recording more lines, with the queue and the known keys as they are. */
  lemma RecordKeepsInv(t: Table, queue: seq<Machine>, c: Coverage, counter: nat, current: set<Key>,
                       c': Coverage, counter': nat)
    requires Inv(t, queue, c, counter, current)
    requires Within(c, c') && c'.known == c.known && counter <= counter' && Truthful(t, c')
    ensures Inv(t, queue, c', counter', current)
  {
    forall k <- c'.known
      ensures KeyExpanded(t, k, c') || Pending(queue, k) || k in current
    {
      if KeyExpanded(t, k, c) {
        KeyExpandedGrows(t, k, c, c');
      }
    }
  }

  lemma PendingGrows(queue: seq<Machine>, machine: Machine, k: Key)
    ensures Pending(queue, k) ==> Pending(queue + [machine], k)
    ensures Pending(queue + [machine], KeyOf(machine.View()))
  {
    if Pending(queue, k) {
      var q :| 0 <= q < |queue| && KeyOf(queue[q].View()) == k;
      assert (queue + [machine])[q] == queue[q];
    }
    assert (queue + [machine])[|queue|] == machine;
  }

  /** Queueing a machine whose key is new. */
  lemma PushKeepsInv(t: Table, queue: seq<Machine>, c: Coverage, counter: nat, current: set<Key>, machine: Machine)
    requires Inv(t, queue, c, counter, current)
    requires machine.table == t && Good(t, machine.View(), counter)
    ensures Inv(t, queue + [machine], c.(known := c.known + {KeyOf(machine.View())}), counter, current)
  {
    var key := KeyOf(machine.View());
    var c' := c.(known := c.known + {key});
    KeyIsListed(t, machine.View());
    forall k <- c'.known
      ensures KeyExpanded(t, k, c') || Pending(queue + [machine], k) || k in current
    {
      PendingGrows(queue, machine, k);
      if KeyExpanded(t, k, c) {
        KeyExpandedGrows(t, k, c, c');
      }
    }
  }

  lemma KeyIsListed(t: Table, m: MState)
    requires Sound(t, m)
    ensures KeyOf(m) in AllKeys(t)
  {
  }

  /** What one trial shows: the key it ends at and the line it selects. */
  method Trial(t: Table, base: Machine, event: Event, v: Variant, counter: nat)
    returns (ok: bool, machine: Machine, found: Coverage, next: nat)
    requires base.table == t && Good(t, base.View(), counter)
    requires !event.Unlisted? && (v.postSend ==> event == EvidenceTurn)
    requires event == LossVoiced && !v.isNew ==> base.seen != {}
    ensures fresh(machine) && machine.table == t && next >= counter
    ensures !ok ==> exists run :: FailsOn(t, run)
    ensures ok ==> VariantCovered(t, base.View(), event, v, found) && Truthful(t, found)
    ensures ok ==> found.known == {} || (found.known == {KeyOf(machine.View())} && Good(t, machine.View(), next))
  {
    var outcome;
    ghost var input;
    ghost var b := base.View();
    found := Coverage({}, {}, {});
    machine, outcome, next, input := TryVariant(t, base, event, v, counter);
    ok := !outcome.Broken?;
    if outcome.Impossible? {
      found := Coverage({}, {}, {outcome.line});
    } else if outcome.Done? {
      var key := Key(machine.state, machine.busy, machine.candidateActive, machine.late, machine.attempts,
                     machine.sessionRequests, machine.seen != {});
      found := Coverage({key}, {machine.history[|machine.history| - 1].line}, {});
    }
    TrialShows(t, b, input, event, v, machine.View(), outcome, found);
  }

  lemma TrialShows(t: Table, m: MState, i: Input, event: Event, v: Variant, m': MState, outcome: Outcome, found: Coverage)
    requires (exists r :: CompletesAt(t, r, m)) && Instance(m, i, event, v)
    requires (m', outcome) == Step(t, m, i)
    requires outcome.Impossible? ==> found == Coverage({}, {}, {outcome.line})
    requires outcome.Done? ==> m'.history != [] && found == Coverage({KeyOf(m')}, {LastLine(m')}, {})
    ensures outcome.Broken? ==> exists run :: FailsOn(t, run)
    ensures !outcome.Broken? ==> VariantCovered(t, m, event, v, found) && Truthful(t, found)
  {
    var run := ExtendRun(t, m, i);
    match outcome {
      case Broken => assert FailsOn(t, run);
      case Impossible(line) =>
        assert StoppedBy(t, run, line);
        CoverInstances(t, m, i, event, v, found);
      case Done(_, _) =>
        assert ReachedBy(t, run, LastLine(m'));
        CoverInstances(t, m, i, event, v, found);
    }
  }

  /** One variant of one event from `base`, with what it finds recorded. `ok` is false when the step
      broke an invariant. */
  method Record(t: Table, base: Machine, event: Event, v: Variant, queue: seq<Machine>, c: Coverage, counter: nat)
    returns (ok: bool, queue': seq<Machine>, c': Coverage, counter': nat)
    requires base.table == t && Good(t, base.View(), counter)
    requires !event.Unlisted? && (v.postSend ==> event == EvidenceTurn)
    requires event == LossVoiced && !v.isNew ==> base.seen != {}
    requires Inv(t, queue, c, counter, {KeyOf(base.View())})
    ensures !ok ==> exists run :: FailsOn(t, run)
    ensures ok ==> Inv(t, queue', c', counter', {KeyOf(base.View())})
    ensures ok ==> VariantCovered(t, base.View(), event, v, c')
    ensures Within(c, c') && counter <= counter'
    ensures queue' == queue || c.known < c'.known
  {
    var machine, found;
    ghost var b := base.View();
    ok, machine, found, counter' := Trial(t, base, event, v, counter);
    queue', c' := queue, c;
    if ok {
      c' := Coverage(c.known, c.reached + found.reached, c.impossible + found.impossible);
      RecordKeepsInv(t, queue, c, counter, {KeyOf(b)}, c', counter');
      if !(found.known <= c.known) {
        PushKeepsInv(t, queue, c', counter', {KeyOf(b)}, machine);
        c' := c'.(known := c.known + found.known);
        queue' := queue + [machine];
      }
      VariantCoveredGrows(t, b, event, v, found, c');
    }
  }

  lemma CoverInstances(t: Table, b: MState, input: Input, event: Event, v: Variant, c: Coverage)
    requires Instance(b, input, event, v) && Covers(t, b, input, c)
    ensures VariantCovered(t, b, event, v, c)
  {
    forall i: Input | Instance(b, i, event, v)
      ensures Covers(t, b, i, c)
    {
      CoversAlike(t, b, input, b, i, c);
    }
  }

  /** What expanding may change: coverage and names grow, and the queue only with a new key. */
  ghost predicate Onward(queue: seq<Machine>, c: Coverage, counter: nat, queue': seq<Machine>, c': Coverage, counter': nat) {
    Within(c, c') && counter <= counter' && (queue' == queue || c.known < c'.known)
  }

  lemma OnwardCompose(q0: seq<Machine>, c0: Coverage, n0: nat, q1: seq<Machine>, c1: Coverage, n1: nat,
                      q2: seq<Machine>, c2: Coverage, n2: nat)
    requires Onward(q0, c0, n0, q1, c1, n1) && Onward(q1, c1, n1, q2, c2, n2)
    ensures Onward(q0, c0, n0, q2, c2, n2)
  {
  }

  /** Where the loop over the variants of one event stands after `k` of them. */
  ghost predicate Expanding(t: Table, b: MState, event: Event, variants: seq<Variant>, k: nat,
                            queue: seq<Machine>, c: Coverage, counter: nat)
    reads queue
  {
    && k <= |variants| && variants == Variants(event, b.seen != {})
    && Inv(t, queue, c, counter, {KeyOf(b)}) && Good(t, b, counter)
    && AllCovered(t, b, event, variants[..k], c)
  }

  /** The next variant of one event from `base`. */
  method ExpandVariant(t: Table, base: Machine, event: Event, variants: seq<Variant>, k: nat,
                       queue: seq<Machine>, c: Coverage, counter: nat, ghost b: MState)
    returns (ok: bool, queue': seq<Machine>, c': Coverage, counter': nat)
    requires base.table == t && base.View() == b && !event.Unlisted? && k < |variants|
    requires Expanding(t, b, event, variants, k, queue, c, counter)
    ensures !ok ==> exists run :: FailsOn(t, run)
    ensures ok ==> Expanding(t, b, event, variants, k + 1, queue', c', counter')
    ensures Onward(queue, c, counter, queue', c', counter')
  {
    assert variants[k] in variants;
    ok, queue', c', counter' := Record(t, base, event, variants[k], queue, c, counter);
    if ok {
      GoodLater(t, b, counter, counter');
      AllCoveredStep(t, b, event, variants, k, c, c');
    }
  }

  /** Every variant of one event from `base`. */
  method ExpandEvent(t: Table, base: Machine, event: Event, queue: seq<Machine>, c: Coverage, counter: nat)
    returns (ok: bool, queue': seq<Machine>, c': Coverage, counter': nat)
    requires base.table == t && Good(t, base.View(), counter) && !event.Unlisted?
    requires Inv(t, queue, c, counter, {KeyOf(base.View())})
    ensures !ok ==> exists run :: FailsOn(t, run)
    ensures ok ==> Inv(t, queue', c', counter', {KeyOf(base.View())})
    ensures ok ==> EventCovered(t, base.View(), event, c')
    ensures Onward(queue, c, counter, queue', c', counter')
  {
    ghost var b := base.View();
    var variants := Variants(event, base.seen != {});
    ok, queue', c', counter' := true, queue, c, counter;
    assert Expanding(t, b, event, variants, 0, queue, c, counter);
    for k := 0 to |variants|
      invariant ok && base.View() == b
      invariant Expanding(t, b, event, variants, k, queue', c', counter')
      invariant Onward(queue, c, counter, queue', c', counter')
    {
      ghost var q, d, n := queue', c', counter';
      ok, queue', c', counter' := ExpandVariant(t, base, event, variants, k, queue', c', counter', b);
      OnwardCompose(queue, c, counter, q, d, n, queue', c', counter');
      if !ok {
        return;
      }
    }
    assert variants[..|variants|] == variants;
    EventIsCovered(t, b, event, variants, c');
  }

  lemma EventIsCovered(t: Table, m: MState, event: Event, vs: seq<Variant>, c: Coverage)
    requires vs == Variants(event, m.seen != {}) && AllCovered(t, m, event, vs, c)
    ensures EventCovered(t, m, event, c)
  {
    forall i: Input | AdmissibleInput(i) && i.event == event
      ensures Covers(t, m, i, c)
    {
      VariantsAreAll(t, m, event, vs, c, i);
    }
  }

  ghost predicate EventCovered(t: Table, m: MState, event: Event, c: Coverage) {
    forall i: Input :: AdmissibleInput(i) && i.event == event ==> Covers(t, m, i, c)
  }

  ghost predicate AllCovered(t: Table, m: MState, event: Event, vs: seq<Variant>, c: Coverage) {
    forall k :: 0 <= k < |vs| ==> VariantCovered(t, m, event, vs[k], c)
  }

  lemma AllCoveredStep(t: Table, m: MState, event: Event, vs: seq<Variant>, k: nat, c: Coverage, c': Coverage)
    requires k < |vs| && AllCovered(t, m, event, vs[..k], c) && Within(c, c')
    requires VariantCovered(t, m, event, vs[k], c')
    ensures AllCovered(t, m, event, vs[..k + 1], c')
  {
    forall j | 0 <= j < k + 1
      ensures VariantCovered(t, m, event, vs[j], c')
    {
      if j < k {
        assert vs[..k][j] == vs[j];
        VariantCoveredGrows(t, m, event, vs[j], c, c');
      }
    }
  }

  lemma GoodLater(t: Table, m: MState, counter: nat, counter': nat)
    requires Good(t, m, counter) && counter <= counter'
    ensures Good(t, m, counter')
  {
  }

  lemma VariantCoveredGrows(t: Table, m: MState, event: Event, v: Variant, c: Coverage, c': Coverage)
    requires VariantCovered(t, m, event, v, c) && Within(c, c')
    ensures VariantCovered(t, m, event, v, c')
  {
    forall i: Input | Instance(m, i, event, v)
      ensures Covers(t, m, i, c')
    {
      assert Covers(t, m, i, c);
    }
  }

  /** Every listed event from `base`. */
  method ExpandBase(t: Table, base: Machine, queue: seq<Machine>, c: Coverage, counter: nat)
    returns (ok: bool, queue': seq<Machine>, c': Coverage, counter': nat)
    requires base.table == t && Good(t, base.View(), counter)
    requires Inv(t, queue, c, counter, {KeyOf(base.View())})
    ensures !ok ==> exists run :: FailsOn(t, run)
    ensures ok ==> Inv(t, queue', c', counter', {})
    ensures queue' == queue || c.known < c'.known
    ensures Within(c, c')
  {
    ghost var b := base.View();
    ok, queue', c', counter' := true, queue, c, counter;
    var events := EVENTS;
    forall e: Event
      ensures e in events <==> !e.Unlisted?
    {
      EveryEventListed(e);
    }
    for j := 0 to |events|
      invariant ok && base.View() == b && Inv(t, queue', c', counter', {KeyOf(b)})
      invariant EventsCovered(t, b, events[..j], c')
      invariant Within(c, c') && counter <= counter'
      invariant queue' == queue || c.known < c'.known
    {
      ghost var before := c';
      GoodLater(t, b, counter, counter');
      ok, queue', c', counter' := ExpandEvent(t, base, events[j], queue', c', counter');
      if !ok {
        return;
      }
      EventsCoveredStep(t, b, events, j, before, c');
    }
    assert events[..|events|] == events;
    GoodLater(t, b, counter, counter');
    assert forall e: Event :: !e.Unlisted? ==> EventCovered(t, b, e, c');
    InvCloses(t, queue', c', counter', b);
  }

  ghost predicate EventsCovered(t: Table, m: MState, events: seq<Event>, c: Coverage) {
    forall i: Input :: AdmissibleInput(i) && i.event in events ==> Covers(t, m, i, c)
  }

  lemma EventsCoveredStep(t: Table, m: MState, events: seq<Event>, j: nat, c: Coverage, c': Coverage)
    requires j < |events| && EventsCovered(t, m, events[..j], c) && Within(c, c')
    requires EventCovered(t, m, events[j], c')
    ensures EventsCovered(t, m, events[..j + 1], c')
  {
    forall i: Input | AdmissibleInput(i) && i.event in events[..j + 1]
      ensures Covers(t, m, i, c')
    {
      if i.event in events[..j] {
        assert Covers(t, m, i, c);
      }
    }
  }

  /** Once every listed event is covered the machine in hand needs no more. */
  lemma InvCloses(t: Table, queue: seq<Machine>, c: Coverage, counter: nat, b: MState)
    requires Inv(t, queue, c, counter, {KeyOf(b)}) && Good(t, b, counter)
    requires forall e: Event :: !e.Unlisted? ==> EventCovered(t, b, e, c)
    ensures Inv(t, queue, c, counter, {})
  {
    forall i: Input | AdmissibleInput(i)
      ensures Covers(t, b, i, c)
    {
      assert EventCovered(t, b, i.event, c);
    }
    assert KeyExpanded(t, KeyOf(b), c);
  }

  /** `explore`: it ends, it fails exactly when some admissible run breaks an invariant, and when it
      succeeds its two sets are exactly the lines that admissible runs of any length select. */
  method Explore(t: Table) returns (ok: bool, reached: set<nat>, impossible: set<nat>)
    ensures ok <==> forall run :: !FailsOn(t, run)
    ensures ok ==> forall line :: line in reached <==> exists run :: ReachedBy(t, run, line)
    ensures ok ==> forall line :: line in impossible <==> exists run :: StoppedBy(t, run, line)
  {
    var start := new Machine(t);
    var c := Coverage({Key(Clear, false, false, false, 0, 0, false)}, {}, {});
    var queue, counter := [start], 0;
    assert CompletesAt(t, [], Init());
    KeyIsListed(t, Init());
    assert KeyOf(queue[0].View()) == KeyOf(Init());
    while queue != []
      invariant Inv(t, queue, c, counter, {})
      decreases AllKeys(t) - c.known, |queue|
    {
      var base := queue[|queue| - 1];
      ghost var whole := queue;
      queue := queue[..|queue| - 1];
      PopKeepsInv(t, whole, c, counter);
      ok, queue, c, counter := ExpandBase(t, base, queue, c, counter);
      if !ok {
        return false, {}, {};
      }
    }
    forall run | Admissible(run)
      ensures Accounted(t, run, c)
    {
      RunsAreAccounted(t, c, run);
    }
    return true, c.reached, c.impossible;
  }

  lemma PendingInRest(queue: seq<Machine>, k: Key)
    requires queue != [] && Pending(queue, k)
    ensures Pending(queue[..|queue| - 1], k) || k == KeyOf(queue[|queue| - 1].View())
  {
    var q :| 0 <= q < |queue| && KeyOf(queue[q].View()) == k;
    if q < |queue| - 1 {
      assert queue[..|queue| - 1][q] == queue[q];
    }
  }

  lemma PopKeepsInv(t: Table, queue: seq<Machine>, c: Coverage, counter: nat)
    requires queue != [] && Inv(t, queue, c, counter, {})
    ensures Inv(t, queue[..|queue| - 1], c, counter, {KeyOf(queue[|queue| - 1].View())})
  {
    var rest, current := queue[..|queue| - 1], {KeyOf(queue[|queue| - 1].View())};
    assert QueueGood(t, rest, c, counter);
    forall k <- c.known
      ensures KeyExpanded(t, k, c) || Pending(rest, k) || k in current
    {
      if !KeyExpanded(t, k, c) {
        PendingInRest(queue, k);
      }
    }
  }

  ghost predicate Accounted(t: Table, run: seq<Input>, c: Coverage) {
    match Run(t, run)
    case Completed(m) =>
      KeyOf(m) in c.known && (run == [] || (m.history != [] && LastLine(m) in c.reached))
    case Stopped(line) => line in c.impossible
    case Failed => false
  }

  /** A closed set of expanded keys accounts for every admissible run, of any length. */
  lemma {:induction false} RunsAreAccounted(t: Table, c: Coverage, run: seq<Input>)
    requires KeyOf(Init()) in c.known
    requires forall k <- c.known :: KeyExpanded(t, k, c)
    requires Admissible(run)
    ensures Accounted(t, run, c)
    decreases |run|
  {
    if run != [] {
      var front, i := run[..|run| - 1], run[|run| - 1];
      RunsAreAccounted(t, c, front);
      if Run(t, front).Completed? {
        var m := Run(t, front).m;
        CompletedRunIsSafe(t, front);
        var m2: MState, counter: nat :|
          KeyOf(m2) == KeyOf(m) && Sound(t, m2) && SeenBelow(m2, counter) && Expanded(t, m2, c);
        AlikeByKey(t, m, m2);
        var i2 := Twin(m, i, m2, counter);
        assert Covers(t, m2, i2, c);
        CoversAlike(t, m2, i2, m, i, c);
      }
    }
  }

  /** The event an explored machine met that corresponds to `i`. */
  lemma Twin(m: MState, i: Input, m2: MState, counter: nat) returns (i2: Input)
    requires Alike(m, m2) && AdmissibleInput(i) && SeenBelow(m2, counter)
    ensures AdmissibleInput(i2) && i2.event == i.event && i2.postSend == i.postSend
    ensures IsDup(m2, i2) == IsDup(m, i)
  {
    if IsDup(m, i) {
      var ident :| ident in m2.seen;
      i2 := i.(ident := ident);
    } else {
      NextNameIsFresh(m2, counter);
      i2 := i.(ident := Name(counter + 1));
    }
  }

  /** A release or retry row that asks for no attempts left: kept only to make the table total. */
  predicate Defensive(row: Row) {
    && AttemptsLeft in row.guards && !row.guards[AttemptsLeft]
    && (row.event == FloorReleased || row.event == BusyEnd)
  }

  ghost predicate Selects(t: Table, run: seq<Input>, line: nat) {
    ReachedBy(t, run, line) || StoppedBy(t, run, line)
  }

  /** `unreachable`: the rows, other than the defensive ones, whose line no admissible run selects. */
  method Unreachable(t: Table) returns (ok: bool, rows: seq<Row>)
    ensures ok <==> forall run :: !FailsOn(t, run)
    ensures ok ==> forall r :: r in rows <==> r in t.rows && !Defensive(r) && forall run :: !Selects(t, run, r.line)
  {
    var reached, impossible;
    ok, reached, impossible := Explore(t);
    rows := [];
    if !ok {
      return;
    }
    forall line
      ensures line in reached || line in impossible <==> exists run :: Selects(t, run, line)
    {
      if run :| ReachedBy(t, run, line) {
        assert Selects(t, run, line);
      } else if run :| StoppedBy(t, run, line) {
        assert Selects(t, run, line);
      }
    }
    for k := 0 to |t.rows|
      invariant forall r :: r in rows <==> r in t.rows[..k] && !Defensive(r) && r.line !in reached && r.line !in impossible
    {
      if t.rows[k].line !in reached && t.rows[k].line !in impossible && !Defensive(t.rows[k]) {
        rows := rows + [t.rows[k]];
      }
    }
    assert t.rows[..|t.rows|] == t.rows;
  }

  /** A table that is total, that no admissible run of any length breaks, and in which every row that is
      not defensive has its line selected by a run. */
  ghost predicate Passes(t: Table) {
    && Total(t)
    && (forall run :: !FailsOn(t, run))
    && (forall r <- t.rows ::
          || (exists run :: Selects(t, run, r.line))
          || (AttemptsLeft in r.guards && !r.guards[AttemptsLeft] && (r.event == FloorReleased || r.event == BusyEnd)))
  }

  /** The `check` command passes exactly those tables. */
  method Check(t: Table) returns (passes: bool)
    requires Parsed(t)
    ensures passes <==> Passes(t)
  {
    var problems, _ := Validate(t);
    if Total(t) {
      forall k | 0 <= k < |t.rows|
        ensures Selectable(t, k)
      {
        TotalTablesHaveNoDeadRow(t, k);
      }
    }
    if problems != [] {
      return false;
    }
    var ok, dead := Unreachable(t);
    if !ok {
      return false;
    }
    passes := dead == [];
    if !passes {
      assert dead[0] in dead;
    }
  }
}
