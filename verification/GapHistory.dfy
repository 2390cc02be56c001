/** What a run of the gap machine does, read off its events and its history alone
    (scripts/check-gap-state.py, 205-305 and 376-387; docs/turn-timing.md, 389-403). */
module GapHistory {
  import opened GapTable

  // ----- readings of a history -----

  function StateAfter(history: seq<Entry>): State {
    if history == [] then Clear else history[|history| - 1].after
  }

  predicate Closes(a: Action) {
    a == Settle || a == UnrepairedBudget || a == UnrepairedAttempts || a == EndUnsettled
  }

  predicate Restarts(a: Action) {
    a == OpenGap || a == ReopenGap
  }

  /** A gap is owed from the action that opens it to the one that pays it or writes it off. */
  function Owed(acts: seq<Action>): bool {
    if acts == [] then false
    else
      var last := acts[|acts| - 1];
      if last == OpenGap || last == PreserveDebt then true
      else if Closes(last) then false
      else Owed(acts[..|acts| - 1])
  }

  /** A loss came while a request was in flight, and no action has dealt with it since. */
  function LateAfter(acts: seq<Action>): bool {
    if acts == [] then false
    else
      var last := acts[|acts| - 1];
      if last == MarkLate then true
      else if last == SendRequest || Restarts(last) || Closes(last) then false
      else LateAfter(acts[..|acts| - 1])
  }

  ghost predicate Voiced(run: seq<Input>, ident: string) {
    exists k :: 0 <= k < |run| && run[k].event == LossVoiced && run[k].ident == ident
  }

  /** What a guard means as `i` arrives after `run`, whose history took the actions in `past`. */
  ghost predicate Reads(t: Table, run: seq<Input>, past: seq<Action>, i: Input, g: Guard) {
    match g
    case Dup => i.event == LossVoiced && Voiced(run, i.ident)
    case Busy => BusyAfter(run + [i])
    case CandidateActive => SpeakingAfter(run + [i])
    case BudgetLeft => Count(past, CommitRequest) < t.sessionRequests
    case AttemptsLeft => SendsThisEpisode(past) < t.episodeAttempts
    case PostSend => i.postSend
    case LateLoss => LateAfter(past)
  }

  /** Row `k` is for the current state and this event, and all its literals agree with what the guards
      mean. */
  ghost predicate Fits(t: Table, run: seq<Input>, history: seq<Entry>, i: Input, k: nat) {
    && k < |t.rows| && t.rows[k].state == StateAfter(history) && t.rows[k].event == i.event
    && forall g <- t.rows[k].guards :: Reads(t, run, Flat(history), i, g) == t.rows[k].guards[g]
  }

  ghost predicate OnlyFits(t: Table, run: seq<Input>, history: seq<Entry>, i: Input, k: nat) {
    Fits(t, run, history, i, k) && forall j: nat :: Fits(t, run, history, i, j) ==> j == k
  }

  /** What surrounds the actions of one step. */
  datatype Scene = Scene(before: State, busy: bool, speaking: bool, postSend: bool)

  function SceneOf(run: seq<Input>, history: seq<Entry>, i: Input): Scene {
    Scene(StateAfter(history), BusyAfter(run + [i]), SpeakingAfter(run + [i]), i.postSend)
  }

  /** When an action is in order, after the actions in `past`. */
  ghost predicate InOrder(t: Table, past: seq<Action>, a: Action, sc: Scene) {
    match a
    case SendRequest =>
      && !sc.busy && !sc.speaking && (sc.before == Open || sc.before == Due)
      && Owed(past) && SendsThisEpisode(past) < t.episodeAttempts
    case CommitRequest => sc.before == Sending && Count(past, CommitRequest) < t.sessionRequests
    case Settle => sc.before == Requested && sc.postSend
    case UnrepairedBudget => sc.before != Clear
    case UnrepairedAttempts => sc.before != Clear
    case EndUnsettled => sc.before != Clear
    case _ => true
  }

  ghost predicate AllInOrder(t: Table, past: seq<Action>, actions: seq<Action>, sc: Scene) {
    forall j :: 0 <= j < |actions| ==> InOrder(t, past + actions[..j], actions[j], sc)
  }

  /** Every action of the row is in order, a gap is owed exactly outside CLEAR, and a request that was
      sent is in flight. */
  ghost predicate MayFire(t: Table, run: seq<Input>, history: seq<Entry>, i: Input, row: Row) {
    && Invalid !in row.actions
    && AllInOrder(t, Flat(history), row.actions, SceneOf(run, history, i))
    && Owed(Flat(history) + row.actions) == (row.next != Clear)
    && (SendRequest in row.actions ==> row.next == Sending)
  }

  /** A listed event, with an id if it is a voiced loss. */
  predicate WellPut(i: Input) {
    !i.event.Unlisted? && (i.event == LossVoiced ==> i.ident != "")
  }

  function EntryOf(history: seq<Entry>, i: Input, row: Row): Entry {
    Entry(i.event, StateAfter(history), row.next, row.actions, row.line)
  }

  // ----- the fields are readings -----

  /** The fields an action can change are readings of the actions so far. */
  ghost predicate Tallied(m: MState, past: seq<Action>) {
    && m.debt == Owed(past) && m.late == LateAfter(past)
    && m.attempts == SendsThisEpisode(past) && m.requests == Count(past, CommitRequest)
  }

  /** Every field is a reading of the run and its history. */
  ghost predicate ReadOff(run: seq<Input>, m: MState) {
    && m.state == StateAfter(m.history) && Tallied(m, Flat(m.history))
    && m.busy == BusyAfter(run) && m.candidateActive == SpeakingAfter(run)
    && (forall ident: string :: ident in m.seen <==> Voiced(run, ident))
  }

  lemma TallyGrows(past: seq<Action>, a: Action)
    ensures Owed(past + [a]) == (a == OpenGap || a == PreserveDebt || (!Closes(a) && Owed(past)))
    ensures LateAfter(past + [a]) ==
            (a == MarkLate || (a != SendRequest && !Restarts(a) && !Closes(a) && LateAfter(past)))
  {
    assert (past + [a])[..|past|] == past;
  }

  lemma SendTallies(t: Table, m: MState, before: State, gs: Guards, past: seq<Action>, sc: Scene)
    requires Tallied(m, past) && sc == Scene(before, gs.busy, m.candidateActive, gs.postSend)
    ensures ApplySend(t, m, before, gs).1 <==> InOrder(t, past, SendRequest, sc)
    ensures ApplySend(t, m, before, gs).1 ==> Tallied(ApplySend(t, m, before, gs).0, past + [SendRequest])
  {
    TallyGrows(past, SendRequest);
    CountersGrow(m, past, SendRequest);
  }

  lemma CommitTallies(t: Table, m: MState, before: State, past: seq<Action>, sc: Scene)
    requires Tallied(m, past) && sc.before == before
    ensures ApplyCommit(t, m, before).1 <==> InOrder(t, past, CommitRequest, sc)
    ensures ApplyCommit(t, m, before).1 ==> Tallied(ApplyCommit(t, m, before).0, past + [CommitRequest])
  {
    TallyGrows(past, CommitRequest);
    CountersGrow(m, past, CommitRequest);
  }

  lemma EndTallies(t: Table, m: MState, a: Action, before: State, past: seq<Action>, sc: Scene)
    requires Tallied(m, past) && Closes(a) && sc.before == before && (a == Settle ==> before == Requested && sc.postSend)
    ensures EndEpisode(m, before).1 <==> InOrder(t, past, a, sc)
    ensures EndEpisode(m, before).1 ==> Tallied(EndEpisode(m, before).0, past + [a])
  {
    TallyGrows(past, a);
    CountersGrow(m, past, a);
  }

  lemma CloseTallies(t: Table, m: MState, a: Action, before: State, gs: Guards, past: seq<Action>, sc: Scene)
    requires Tallied(m, past) && Closes(a) && sc.before == before && sc.postSend == gs.postSend
    ensures Apply(t, m, a, before, gs).1 <==> InOrder(t, past, a, sc)
    ensures Apply(t, m, a, before, gs).1 ==> Tallied(Apply(t, m, a, before, gs).0, past + [a])
  {
    if a != Settle || (before == Requested && gs.postSend) {
      EndTallies(t, m, a, before, past, sc);
    }
  }

  lemma PlainTallies(m: MState, a: Action, past: seq<Action>)
    requires Tallied(m, past) && a != SendRequest && a != CommitRequest && !Closes(a)
    ensures Tallied(ApplyPlain(m, a), past + [a])
  {
    TallyGrows(past, a);
    CountersGrow(m, past, a);
  }

  /** An action completes exactly when it is in order, and keeps the readings. */
  lemma ActionTallies(t: Table, m: MState, a: Action, before: State, gs: Guards, past: seq<Action>, sc: Scene)
    requires Tallied(m, past) && sc == Scene(before, gs.busy, m.candidateActive, gs.postSend)
    ensures Apply(t, m, a, before, gs).1 <==> InOrder(t, past, a, sc)
    ensures Apply(t, m, a, before, gs).1 ==> Tallied(Apply(t, m, a, before, gs).0, past + [a])
  {
    if a == SendRequest {
      SendTallies(t, m, before, gs, past, sc);
    } else if a == CommitRequest {
      CommitTallies(t, m, before, past, sc);
    } else if Closes(a) {
      CloseTallies(t, m, a, before, gs, past, sc);
    } else {
      PlainTallies(m, a, past);
    }
  }

  lemma ActionTouches(t: Table, m: MState, a: Action, before: State, gs: Guards)
    ensures SameOutside(m, Apply(t, m, a, before, gs).0)
  {
    if a != SendRequest && a != CommitRequest && !EndsEpisode(a) {
      PlainFields(m, a);
    }
  }

  lemma InOrderFirst(t: Table, past: seq<Action>, actions: seq<Action>, sc: Scene)
    requires actions != []
    ensures AllInOrder(t, past, actions, sc) <==>
              InOrder(t, past, actions[0], sc) && AllInOrder(t, past + [actions[0]], actions[1..], sc)
  {
    var first, rest := [actions[0]], actions[1..];
    forall j | 0 <= j < |rest|
      ensures past + first + rest[..j] == past + actions[..j + 1] && rest[j] == actions[j + 1]
    {
      assert first + rest[..j] == actions[..j + 1];
    }
    assert past + actions[..0] == past;
    if AllInOrder(t, past, actions, sc) {
      assert InOrder(t, past + actions[..0], actions[0], sc);
      forall j | 0 <= j < |rest|
        ensures InOrder(t, past + first + rest[..j], rest[j], sc)
      {
        assert InOrder(t, past + actions[..j + 1], actions[j + 1], sc);
      }
    }
    if InOrder(t, past, actions[0], sc) && AllInOrder(t, past + first, rest, sc) {
      forall j | 0 <= j < |actions|
        ensures InOrder(t, past + actions[..j], actions[j], sc)
      {
        if j > 0 {
          assert InOrder(t, past + first + rest[..j - 1], rest[j - 1], sc);
        }
      }
    }
  }

  lemma {:induction false} ActionsTally(t: Table, m: MState, actions: seq<Action>, before: State, gs: Guards,
                                        past: seq<Action>, sc: Scene, all: seq<Action>)
    requires Tallied(m, past) && sc == Scene(before, gs.busy, m.candidateActive, gs.postSend)
    requires all == past + actions
    ensures ApplyAll(t, m, actions, before, gs).1 <==> AllInOrder(t, past, actions, sc)
    ensures SameOutside(m, ApplyAll(t, m, actions, before, gs).0)
    ensures ApplyAll(t, m, actions, before, gs).1 ==> Tallied(ApplyAll(t, m, actions, before, gs).0, all)
    decreases |actions|
  {
    if actions == [] {
      assert all == past;
    } else {
      ActionTallies(t, m, actions[0], before, gs, past, sc);
      ActionTouches(t, m, actions[0], before, gs);
      InOrderFirst(t, past, actions, sc);
      FirstAction(past, actions);
      var (m1, ok) := Apply(t, m, actions[0], before, gs);
      if ok {
        ActionsTally(t, m1, actions[1..], before, gs, past + [actions[0]], sc, all);
      }
    }
  }

  // ----- one step -----

  /** The guards the machine reads are what the guards mean. */
  lemma GuardsAreReadings(t: Table, run: seq<Input>, m: MState, i: Input, g: Guard)
    requires ReadOff(run, m)
    ensures Value(GuardsOf(t, Observe(m, i.event), i), g) == Reads(t, run, Flat(m.history), i, g)
  {
    EdgesExtend(run, m, i, run + [i]);
  }

  lemma MatchesIsFits(t: Table, run: seq<Input>, m: MState, i: Input, k: nat)
    requires ReadOff(run, m) && k < |t.rows|
    ensures Matches(t.rows[k], Observe(m, i.event).state, i.event, GuardsOf(t, Observe(m, i.event), i)) <==>
              Fits(t, run, m.history, i, k)
  {
    forall g <- t.rows[k].guards
      ensures Value(GuardsOf(t, Observe(m, i.event), i), g) == Reads(t, run, Flat(m.history), i, g)
    {
      GuardsAreReadings(t, run, m, i, g);
    }
  }

  lemma MatchUnfolds(t: Table, from: nat, s: State, e: Event, gs: Guards)
    requires from <= |t.rows| && MatchFrom(t, from, s, e, gs) != []
    ensures from < |t.rows|
    ensures var found, rest := MatchFrom(t, from, s, e, gs), MatchFrom(t, from + 1, s, e, gs);
            found == rest || found == [from] + rest
  {
    hide Matches;
    assert [] + MatchFrom(t, from + 1, s, e, gs) == MatchFrom(t, from + 1, s, e, gs);
  }

  lemma {:induction false} MatchAscends(t: Table, from: nat, s: State, e: Event, gs: Guards, a: nat, b: nat)
    requires from <= |t.rows| && a < b < |MatchFrom(t, from, s, e, gs)|
    ensures MatchFrom(t, from, s, e, gs)[a] < MatchFrom(t, from, s, e, gs)[b]
    decreases |t.rows| - from
  {
    hide Matches, MatchFrom;
    MatchUnfolds(t, from, s, e, gs);
    var rest := MatchFrom(t, from + 1, s, e, gs);
    if MatchFrom(t, from, s, e, gs) == rest {
      MatchAscends(t, from + 1, s, e, gs, a, b);
    } else if a > 0 {
      MatchAscends(t, from + 1, s, e, gs, a - 1, b - 1);
    }
  }

  /** The machine's list of matches holds one row exactly when one row fits. */
  lemma OneMatchIsOneFit(t: Table, run: seq<Input>, m: MState, i: Input, k: nat)
    requires ReadOff(run, m)
    ensures var m0 := Observe(m, i.event);
            Match(t, m0.state, i.event, GuardsOf(t, m0, i)) == [k] <==> OnlyFits(t, run, m.history, i, k)
  {
    var m0 := Observe(m, i.event);
    var gs := GuardsOf(t, m0, i);
    var found := Match(t, m0.state, i.event, gs);
    forall j: nat | j < |t.rows|
      ensures Fits(t, run, m.history, i, j) <==> j in found
    {
      MatchesIsFits(t, run, m, i, j);
      if Matches(t.rows[j], m0.state, i.event, gs) {
        MatchFromFindsAll(t, 0, m0.state, i.event, gs, j);
      }
    }
    if OnlyFits(t, run, m.history, i, k) {
      assert k in found;
      if |found| > 1 {
        assert found[0] in found && found[1] in found;
        MatchAscends(t, 0, m0.state, i.event, gs, 0, 1);
      }
    }
  }

  lemma VoicedExtends(run: seq<Input>, i: Input, ident: string)
    ensures Voiced(run + [i], ident) <==> Voiced(run, ident) || (i.event == LossVoiced && i.ident == ident)
  {
    var more := run + [i];
    assert more[|run|] == i;
    assert forall k :: 0 <= k < |run| ==> more[k] == run[k];
  }

  lemma SeenExtends(run: seq<Input>, m: MState, i: Input, gs: Guards, m': MState)
    requires ReadOff(run, m) && gs.dup == (i.event == LossVoiced && i.ident in m.seen)
    requires m'.seen == Note(Observe(m, i.event), i, gs).seen
    ensures forall ident: string :: ident in m'.seen <==> Voiced(run + [i], ident)
  {
    forall ident: string
      ensures ident in m'.seen <==> Voiced(run + [i], ident)
    {
      VoicedExtends(run, i, ident);
    }
  }

  /** The actions of a selected row, from the fields the event finds. */
  lemma RowTallies(t: Table, run: seq<Input>, m: MState, i: Input, gs: Guards, row: Row)
    requires ReadOff(run, m) && gs == GuardsOf(t, Observe(m, i.event), i)
    ensures var m1 := Note(Observe(m, i.event), i, gs);
            var (m2, ok) := ApplyAll(t, m1, row.actions, m.state, gs);
            && (ok <==> AllInOrder(t, Flat(m.history), row.actions, SceneOf(run, m.history, i)))
            && SameOutside(m1, m2) && (ok ==> Tallied(m2, Flat(m.history) + row.actions))
  {
    EdgesExtend(run, m, i, run + [i]);
    var m1 := Note(Observe(m, i.event), i, gs);
    ActionsTally(t, m1, row.actions, m.state, gs, Flat(m.history), SceneOf(run, m.history, i),
                 Flat(m.history) + row.actions);
  }

  lemma FinishEnds(m2: MState, before: State, e: Event, row: Row)
    ensures var o := Finish(m2, before, e, row).1;
            && !o.Impossible?
            && (o.Done? <==> m2.debt == (row.next != Clear) && (SendRequest in row.actions ==> row.next == Sending))
  {
  }

  /** How a row that was selected ends. */
  lemma FireEnds(t: Table, run: seq<Input>, m: MState, i: Input, gs: Guards, row: Row)
    requires ReadOff(run, m) && gs == GuardsOf(t, Observe(m, i.event), i)
    ensures var o := Fire(t, Observe(m, i.event), i, gs, row).1;
            && (o.Impossible? <==> Invalid in row.actions) && (o.Impossible? ==> o.line == row.line)
            && (o.Done? <==> MayFire(t, run, m.history, i, row))
  {
    hide ApplyAll, AllInOrder, Flat;
    RowTallies(t, run, m, i, gs, row);
    var m2 := ApplyAll(t, Note(Observe(m, i.event), i, gs), row.actions, m.state, gs).0;
    FinishEnds(m2, m.state, i.event, row);
  }

  lemma FinishLeaves(run: seq<Input>, m: MState, m2: MState, i: Input, row: Row)
    requires ReadOff(run, m) && Tallied(m2, Flat(m.history) + row.actions) && m2.history == m.history
    requires m2.busy == BusyAfter(run + [i]) && m2.candidateActive == SpeakingAfter(run + [i])
    requires forall ident: string :: ident in m2.seen <==> Voiced(run + [i], ident)
    requires Finish(m2, m.state, i.event, row).1.Done?
    ensures var m' := Finish(m2, m.state, i.event, row).0;
            m'.history == m.history + [EntryOf(m.history, i, row)] && ReadOff(run + [i], m')
  {
    var m' := Finish(m2, m.state, i.event, row).0;
    assert m'.history[..|m.history|] == m.history;
    assert Flat(m'.history) == Flat(m.history) + row.actions;
  }

  /** What a row that completes leaves. */
  lemma FireLeaves(t: Table, run: seq<Input>, m: MState, i: Input, gs: Guards, row: Row)
    requires ReadOff(run, m) && gs == GuardsOf(t, Observe(m, i.event), i)
    requires Fire(t, Observe(m, i.event), i, gs, row).1.Done?
    ensures var m' := Fire(t, Observe(m, i.event), i, gs, row).0;
            m'.history == m.history + [EntryOf(m.history, i, row)] && ReadOff(run + [i], m')
  {
    hide ApplyAll, AllInOrder, Tallied, Flat, Finish;
    var m1 := Note(Observe(m, i.event), i, gs);
    var m2 := ApplyAll(t, m1, row.actions, m.state, gs).0;
    RowTallies(t, run, m, i, gs, row);
    EdgesExtend(run, m, i, run + [i]);
    SeenExtends(run, m, i, gs, m2);
    FinishLeaves(run, m, m2, i, row);
  }

  /** How a step ends whose one fitting row is `row`, and what it leaves. */
  ghost predicate Ends(t: Table, run: seq<Input>, history: seq<Entry>, i: Input, row: Row, m': MState, o: Outcome) {
    && (o.Impossible? <==> Invalid in row.actions) && (o.Impossible? ==> o.line == row.line)
    && (o.Done? <==> MayFire(t, run, history, i, row))
    && (o.Done? ==> m'.history == history + [EntryOf(history, i, row)] && ReadOff(run + [i], m'))
  }

  lemma StepIsReadOff(t: Table, run: seq<Input>, m: MState, i: Input)
    requires ReadOff(run, m)
    ensures forall k: nat :: WellPut(i) && OnlyFits(t, run, m.history, i, k) ==>
              Ends(t, run, m.history, i, t.rows[k], Step(t, m, i).0, Step(t, m, i).1)
    ensures !Step(t, m, i).1.Broken? ==> WellPut(i) && exists k: nat :: OnlyFits(t, run, m.history, i, k)
  {
    var m0 := Observe(m, i.event);
    var gs := GuardsOf(t, m0, i);
    var found := Match(t, m0.state, i.event, gs);
    forall k: nat
      ensures found == [k] <==> OnlyFits(t, run, m.history, i, k)
    {
      OneMatchIsOneFit(t, run, m, i, k);
    }
    if WellPut(i) && |found| == 1 {
      var row := t.rows[found[0]];
      assert found == [found[0]];
      FireEnds(t, run, m, i, gs, row);
      if Fire(t, m0, i, gs, row).1.Done? {
        FireLeaves(t, run, m, i, gs, row);
      }
    }
  }

  lemma RunExtends(t: Table, run: seq<Input>, i: Input)
    requires Run(t, run).Completed?
    ensures Run(t, run + [i]) == Extend(t, Run(t, run).m, i)
  {
    assert (run + [i])[..|run|] == run;
  }

  lemma StepLeavesReadings(t: Table, run: seq<Input>, m: MState, i: Input)
    requires ReadOff(run, m) && Extend(t, m, i).Completed?
    ensures ReadOff(run + [i], Extend(t, m, i).m)
  {
    StepIsReadOff(t, run, m, i);
    var k: nat :| OnlyFits(t, run, m.history, i, k);
    assert Ends(t, run, m.history, i, t.rows[k], Step(t, m, i).0, Step(t, m, i).1);
  }

  /** Every field of the machine after a completed run is a reading of the run and its history. */
  lemma {:induction false} FieldsAreReadOff(t: Table, run: seq<Input>)
    requires Run(t, run).Completed?
    ensures ReadOff(run, Run(t, run).m)
    decreases |run|
  {
    if run != [] {
      var front, i := run[..|run| - 1], run[|run| - 1];
      assert front + [i] == run;
      FieldsAreReadOff(t, front);
      RunExtends(t, front, i);
      StepLeavesReadings(t, front, Run(t, front).m, i);
    }
  }

  /** One event more after a completed run, with no reference to the machine: it completes exactly when
      one row alone fits and may fire, which is then the entry added; it stops exactly when one row alone
      fits and is marked invalid, and names that row's line; anything else fails. */
  lemma RunGoesOnExactly(t: Table, run: seq<Input>, i: Input)
    requires Run(t, run).Completed?
    ensures var h, r := Run(t, run).m.history, Run(t, run + [i]);
            && (r.Completed? <==>
                  WellPut(i) && exists k: nat :: OnlyFits(t, run, h, i, k) && MayFire(t, run, h, i, t.rows[k]))
            && (r.Stopped? <==>
                  WellPut(i) && exists k: nat :: OnlyFits(t, run, h, i, k) && Invalid in t.rows[k].actions)
    ensures var h, r := Run(t, run).m.history, Run(t, run + [i]);
            forall k: nat :: OnlyFits(t, run, h, i, k) ==>
              && (r.Completed? ==> r.m.history == h + [EntryOf(h, i, t.rows[k])])
              && (r.Stopped? ==> r.line == t.rows[k].line)
  {
    RunExtends(t, run, i);
    FieldsAreReadOff(t, run);
    StepIsReadOff(t, run, Run(t, run).m, i);
  }
}
