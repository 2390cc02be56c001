/** The continuity-gap state table and the machine it drives
    (scripts/check-gap-state.py, 30-77, 170-177, 205-305 and 376-387). */
module GapTable {
  datatype State = Clear | Open | Due | Sending | Requested

  /** The twelve listed events; `Unlisted` is any other name a caller may pass. */
  datatype Event =
    | LossSilent | LossVoiced | SdkUnknown | CandidateStart | FloorReleased | BusyStart | BusyEnd
    | SendOk | SendFailed | RequestUndelivered | EvidenceTurn | SessionEnd
    | Unlisted(name: string)

  datatype Guard = Dup | Busy | CandidateActive | BudgetLeft | AttemptsLeft | PostSend | LateLoss

  datatype Action =
    | Noop | NoteTrim | NoteUnknown | NoteDup | OpenGap | PreserveDebt | MergeGap | MarkLate
    | ReopenGap | Supersede | DeferNoInterrupt | SendRequest | CommitRequest | KeepDebt
    | KeepBudgetSpent | Settle | UnrepairedBudget | UnrepairedAttempts | EndUnsettled | Invalid

  const STATES: seq<State> := [Clear, Open, Due, Sending, Requested]
  const EVENTS: seq<Event> :=
    [LossSilent, LossVoiced, SdkUnknown, CandidateStart, FloorReleased, BusyStart, BusyEnd,
     SendOk, SendFailed, RequestUndelivered, EvidenceTurn, SessionEnd]

  datatype Row = Row(state: State, event: Event, guards: map<Guard, bool>, next: State,
                     actions: seq<Action>, line: nat)

  datatype Table = Table(rows: seq<Row>, sessionRequests: nat, episodeAttempts: nat)

  /** What the reader of the document guarantees about every row it builds. */
  ghost predicate Parsed(t: Table) {
    forall i :: 0 <= i < |t.rows| ==> !t.rows[i].event.Unlisted?
  }

  /** One assignment of the seven guards. */
  datatype Guards = Guards(dup: bool, busy: bool, candidateActive: bool, budgetLeft: bool,
                           attemptsLeft: bool, postSend: bool, lateLoss: bool)

  function Value(gs: Guards, g: Guard): bool {
    match g
    case Dup => gs.dup
    case Busy => gs.busy
    case CandidateActive => gs.candidateActive
    case BudgetLeft => gs.budgetLeft
    case AttemptsLeft => gs.attemptsLeft
    case PostSend => gs.postSend
    case LateLoss => gs.lateLoss
  }

  predicate Matches(row: Row, s: State, e: Event, gs: Guards) {
    row.state == s && row.event == e && forall g <- row.guards :: Value(gs, g) == row.guards[g]
  }

  /** The indexes from `from` on of the rows that match, in table order. */
  function MatchFrom(t: Table, from: nat, s: State, e: Event, gs: Guards): (found: seq<nat>)
    requires from <= |t.rows|
    ensures forall j :: 0 <= j < |found| ==> from <= found[j] < |t.rows| && Matches(t.rows[found[j]], s, e, gs)
    decreases |t.rows| - from
  {
    if from == |t.rows| then []
    else (if Matches(t.rows[from], s, e, gs) then [from] else []) + MatchFrom(t, from + 1, s, e, gs)
  }

  function Match(t: Table, s: State, e: Event, gs: Guards): (found: seq<nat>)
    ensures forall j :: 0 <= j < |found| ==> found[j] < |t.rows| && Matches(t.rows[found[j]], s, e, gs)
  {
    MatchFrom(t, 0, s, e, gs)
  }

  lemma {:induction false} MatchFromFindsAll(t: Table, from: nat, s: State, e: Event, gs: Guards, k: nat)
    requires from <= k < |t.rows| && Matches(t.rows[k], s, e, gs)
    ensures k in MatchFrom(t, from, s, e, gs)
    decreases |t.rows| - from
  {
    if from < k {
      MatchFromFindsAll(t, from + 1, s, e, gs, k);
    }
  }

  // ----- the machine, on values -----

  /** `ident` is empty where the caller passes no interval id. */
  datatype Input = Input(event: Event, ident: string, postSend: bool)

  datatype Entry = Entry(event: Event, before: State, after: State, actions: seq<Action>, line: nat)

  datatype MState = MState(state: State, busy: bool, debt: bool, late: bool, candidateActive: bool,
                           attempts: nat, requests: nat, seen: set<string>, history: seq<Entry>)

  datatype Outcome = Done(state: State, actions: seq<Action>) | Impossible(line: nat) | Broken

  function Init(): MState {
    MState(Clear, false, false, false, false, 0, 0, {}, [])
  }

  predicate EndsEpisode(a: Action) {
    a == Settle || a == UnrepairedBudget || a == UnrepairedAttempts || a == EndUnsettled
  }

  function ApplySend(t: Table, m: MState, before: State, gs: Guards): (MState, bool) {
    if gs.busy || m.candidateActive || !(before == Open || before == Due) || !m.debt then (m, false)
    else (m.(attempts := m.attempts + 1, late := false), m.attempts + 1 <= t.episodeAttempts)
  }

  function ApplyCommit(t: Table, m: MState, before: State): (MState, bool) {
    if before != Sending then (m, false)
    else (m.(requests := m.requests + 1), m.requests + 1 <= t.sessionRequests)
  }

  /** The actions that never raise; most of them only name what happened. */
  function ApplyPlain(m: MState, a: Action): MState {
    match a
    case OpenGap => m.(debt := true, attempts := 0, late := false)
    case PreserveDebt => m.(debt := true)
    case ReopenGap => m.(attempts := 0, late := false)
    case MarkLate => m.(late := true)
    case _ => m
  }

  /** The fields after one action, and whether it kept every invariant it checks. */
  function Apply(t: Table, m: MState, a: Action, before: State, gs: Guards): (MState, bool) {
    if a == SendRequest then ApplySend(t, m, before, gs)
    else if a == CommitRequest then ApplyCommit(t, m, before)
    else if a == Settle && !(before == Requested && gs.postSend) then (m, false)
    else if EndsEpisode(a) then EndEpisode(m, before)
    else (ApplyPlain(m, a), true)
  }

  function EndEpisode(m: MState, before: State): (MState, bool) {
    if before == Clear then (m, false) else (m.(debt := false, attempts := 0, late := false), true)
  }

  function ApplyAll(t: Table, m: MState, actions: seq<Action>, before: State, gs: Guards): (MState, bool)
    decreases |actions|
  {
    if actions == [] then (m, true)
    else
      var (m1, ok) := Apply(t, m, actions[0], before, gs);
      if !ok then (m1, false) else ApplyAll(t, m1, actions[1..], before, gs)
  }

  predicate IsDup(m: MState, i: Input) {
    i.event == LossVoiced && i.ident in m.seen
  }

  /** The edge flags, set before any guard is read. */
  function Observe(m: MState, e: Event): MState {
    match e
    case BusyStart => m.(busy := true)
    case BusyEnd => m.(busy := false)
    case CandidateStart => m.(candidateActive := true)
    case FloorReleased => m.(candidateActive := false)
    case _ => m
  }

  function GuardsOf(t: Table, m: MState, i: Input): Guards {
    Guards(IsDup(m, i), m.busy, m.candidateActive, m.requests < t.sessionRequests,
           m.attempts < t.episodeAttempts, i.postSend, m.late)
  }

  /** One event: the fields afterwards, however far the step got, and how it ended. */
  function Step(t: Table, m: MState, i: Input): (MState, Outcome) {
    if i.event.Unlisted? || (i.event == LossVoiced && i.ident == "") then (m, Broken)
    else
      var m0 := Observe(m, i.event);
      var gs := GuardsOf(t, m0, i);
      var found := Match(t, m0.state, i.event, gs);
      if |found| != 1 then (m0, Broken)
      else
        Fire(t, m0, i, gs, t.rows[found[0]])
  }

  /** The step once exactly one row has been selected. */
  function Fire(t: Table, m0: MState, i: Input, gs: Guards, row: Row): (MState, Outcome) {
    if Invalid in row.actions then (m0, Impossible(row.line))
    else
      var m1 := Note(m0, i, gs);
      var (m2, ok) := ApplyAll(t, m1, row.actions, m0.state, gs);
      if !ok then (m2, Broken)
      else Finish(m2, m0.state, i.event, row)
  }

  function Note(m0: MState, i: Input, gs: Guards): MState {
    if i.event == LossVoiced && !gs.dup then m0.(seen := m0.seen + {i.ident}) else m0
  }

  function Finish(m2: MState, before: State, e: Event, row: Row): (MState, Outcome) {
    var m3 := m2.(state := row.next);
    if m3.debt != (m3.state != Clear) || (SendRequest in row.actions && m3.state != Sending) then (m3, Broken)
    else (m3.(history := m3.history + [Entry(e, before, row.next, row.actions, row.line)]),
          Done(row.next, row.actions))
  }

  // ----- the machine, as the object whose fields `step` updates -----

  class Machine {
    const table: Table
    var state: State
    var busy: bool
    var debt: bool
    var late: bool
    var candidateActive: bool
    var attempts: nat
    var sessionRequests: nat
    var seen: set<string>
    var history: seq<Entry>

    constructor (table: Table)
      ensures this.table == table && View() == Init()
    {
      this.table := table;
      state, busy, debt, late, candidateActive := Clear, false, false, false, false;
      attempts, sessionRequests, seen, history := 0, 0, {}, [];
    }

    constructor Copy(m: Machine)
      ensures table == m.table && View() == m.View()
    {
      table := m.table;
      state, busy, debt, late, candidateActive := m.state, m.busy, m.debt, m.late, m.candidateActive;
      attempts, sessionRequests, seen, history := m.attempts, m.sessionRequests, m.seen, m.history;
    }

    ghost function View(): MState
      reads this
    {
      MState(state, busy, debt, late, candidateActive, attempts, sessionRequests, seen, history)
    }

    /** A copy with its own ids and history: stepping it leaves the original alone. */
    method Clone() returns (other: Machine)
      ensures fresh(other) && other.table == table && other.View() == View()
    {
      other := new Machine.Copy(this);
    }

    method ApplyAction(action: Action, before: State, guards: Guards) returns (ok: bool)
      modifies this
      ensures View() == Apply(table, old(View()), action, before, guards).0
      ensures ok == Apply(table, old(View()), action, before, guards).1
    {
      if action == SendRequest {
        ok := Send(before, guards);
      } else if action == CommitRequest {
        ok := Commit(before);
      } else if action == Settle && !(before == Requested && guards.postSend) {
        ok := false;
      } else if EndsEpisode(action) {
        ok := WriteOff(before);
      } else {
        Mark(action);
        ok := true;
      }
    }

    method Send(before: State, guards: Guards) returns (ok: bool)
      modifies this
      ensures View() == ApplySend(table, old(View()), before, guards).0
      ensures ok == ApplySend(table, old(View()), before, guards).1
    {
      if guards.busy || candidateActive || !(before == Open || before == Due) || !debt {
        return false;
      }
      attempts, late := attempts + 1, false;
      return attempts <= table.episodeAttempts;
    }

    method Commit(before: State) returns (ok: bool)
      modifies this
      ensures View() == ApplyCommit(table, old(View()), before).0
      ensures ok == ApplyCommit(table, old(View()), before).1
    {
      if before != Sending {
        return false;
      }
      sessionRequests := sessionRequests + 1;
      return sessionRequests <= table.sessionRequests;
    }

    method Mark(action: Action)
      modifies this
      ensures View() == ApplyPlain(old(View()), action)
    {
      if action == OpenGap || action == PreserveDebt {
        debt := true;
      }
      if action == OpenGap || action == ReopenGap {
        attempts, late := 0, false;
      }
      if action == MarkLate {
        late := true;
      }
    }

    /** What the four endings of an episode share. */
    method WriteOff(before: State) returns (ok: bool)
      modifies this
      ensures View() == EndEpisode(old(View()), before).0
      ensures ok == EndEpisode(old(View()), before).1
    {
      if before == Clear {
        return false;
      }
      debt, attempts, late := false, 0, false;
      return true;
    }

    method SetEdge(event: Event)
      modifies this
      ensures View() == Observe(old(View()), event)
    {
      if event == BusyStart {
        busy := true;
      } else if event == BusyEnd {
        busy := false;
      } else if event == CandidateStart {
        candidateActive := true;
      } else if event == FloorReleased {
        candidateActive := false;
      }
    }

    method StepEvent(event: Event, ident: string, postSend: bool) returns (outcome: Outcome)
      modifies this
      ensures View() == Step(table, old(View()), Input(event, ident, postSend)).0
      ensures outcome == Step(table, old(View()), Input(event, ident, postSend)).1
    {
      ghost var input := Input(event, ident, postSend);
      if event.Unlisted? || (event == LossVoiced && ident == "") {
        return Broken;
      }
      SetEdge(event);
      var guards := Guards(event == LossVoiced && ident in seen, busy, candidateActive,
                           sessionRequests < table.sessionRequests, attempts < table.episodeAttempts,
                           postSend, late);
      assert guards == GuardsOf(table, View(), input);
      var rows := Match(table, state, event, guards);
      if |rows| != 1 {
        return Broken;
      }
      outcome := FireRow(table.rows[rows[0]], event, ident, guards, input);
    }

    method FireRow(row: Row, event: Event, ident: string, guards: Guards, ghost input: Input) returns (outcome: Outcome)
      requires input.event == event && input.ident == ident
      modifies this
      ensures View() == Fire(table, old(View()), input, guards, row).0
      ensures outcome == Fire(table, old(View()), input, guards, row).1
    {
      var before := state;
      if Invalid in row.actions {
        return Impossible(row.line);
      }
      if event == LossVoiced && !guards.dup {
        seen := seen + {ident};
      }
      var ok := ApplyActions(row.actions, before, guards);
      if !ok {
        return Broken;
      }
      outcome := FinishRow(row, event, before);
    }

    method ApplyActions(actions: seq<Action>, before: State, guards: Guards) returns (ok: bool)
      modifies this
      ensures View() == ApplyAll(table, old(View()), actions, before, guards).0
      ensures ok == ApplyAll(table, old(View()), actions, before, guards).1
    {
      ghost var applied := ApplyAll(table, View(), actions, before, guards);
      var k := 0;
      while k < |actions|
        invariant 0 <= k <= |actions|
        invariant ApplyAll(table, View(), actions[k..], before, guards) == applied
      {
        ok := ApplyAction(actions[k], before, guards);
        if !ok {
          return false;
        }
        assert actions[k..][1..] == actions[k + 1..];
        k := k + 1;
      }
      return true;
    }

    method FinishRow(row: Row, event: Event, before: State) returns (outcome: Outcome)
      modifies this
      ensures View() == Finish(old(View()), before, event, row).0
      ensures outcome == Finish(old(View()), before, event, row).1
    {
      state := row.next;
      if debt != (state != Clear) {
        return Broken;
      }
      if SendRequest in row.actions && state != Sending {
        return Broken;
      }
      history := history + [Entry(event, before, state, row.actions, row.line)];
      return Done(state, row.actions);
    }
  }

  // ----- whole sequences -----

  datatype RunResult = Completed(m: MState) | Stopped(line: nat) | Failed

  /** Every event of `run` in order, from a fresh machine, up to the first one that raises. */
  function Run(t: Table, run: seq<Input>): RunResult {
    if run == [] then Completed(Init())
    else
      match Run(t, run[..|run| - 1])
      case Completed(m) => Extend(t, m, run[|run| - 1])
      case other => other
  }

  function Extend(t: Table, m: MState, i: Input): RunResult {
    var (m', o) := Step(t, m, i);
    After(m', o)
  }

  function After(m: MState, o: Outcome): RunResult {
    match o
    case Done(_, _) => Completed(m)
    case Impossible(line) => Stopped(line)
    case Broken => Failed
  }

  ghost predicate ReplayedTo(t: Table, events: seq<Input>, k: nat, r: RunResult) {
    k <= |events| && Run(t, events[..k]) == r
  }

  method ReplayNext(machine: Machine, events: seq<Input>, k: nat) returns (outcome: Outcome)
    requires k < |events| && ReplayedTo(machine.table, events, k, Completed(machine.View()))
    modifies machine
    ensures ReplayedTo(machine.table, events, k + 1, After(machine.View(), outcome))
  {
    ghost var front := events[..k + 1];
    assert front[..|front| - 1] == events[..k] && front[|front| - 1] == events[k];
    outcome := machine.StepEvent(events[k].event, events[k].ident, events[k].postSend);
    assert events[k] == Input(events[k].event, events[k].ident, events[k].postSend);
  }

  method Replay(table: Table, events: seq<Input>) returns (machine: Machine, result: RunResult)
    ensures result == Run(table, events)
    ensures result.Completed? ==> machine.View() == result.m
  {
    machine := new Machine(table);
    var k := 0;
    while k < |events|
      invariant 0 <= k <= |events|
      invariant fresh(machine) && machine.table == table
      invariant ReplayedTo(table, events, k, Completed(machine.View()))
    {
      var outcome := ReplayNext(machine, events, k);
      k := k + 1;
      if outcome.Impossible? || outcome.Broken? {
        FailureIsFinal(table, events, k);
        return machine, if outcome.Impossible? then Stopped(outcome.line) else Failed;
      }
    }
    assert events[..k] == events;
    return machine, Completed(MState(machine.state, machine.busy, machine.debt, machine.late,
                                     machine.candidateActive, machine.attempts,
                                     machine.sessionRequests, machine.seen, machine.history));
  }

  lemma {:induction false} FailureIsFinal(t: Table, run: seq<Input>, k: nat)
    requires k <= |run| && !Run(t, run[..k]).Completed?
    ensures Run(t, run) == Run(t, run[..k])
    decreases |run|
  {
    if k == |run| {
      assert run[..k] == run;
    } else {
      assert run[..|run| - 1][..k] == run[..k];
      FailureIsFinal(t, run[..|run| - 1], k);
    }
  }

  // ----- what every completed run keeps -----

  /** Debt is owed exactly outside CLEAR, and neither cap is exceeded. */
  ghost predicate Sound(t: Table, m: MState) {
    && m.debt == (m.state != Clear)
    && m.attempts <= t.episodeAttempts
    && m.requests <= t.sessionRequests
  }

  function Flat(history: seq<Entry>): seq<Action> {
    if history == [] then [] else Flat(history[..|history| - 1]) + history[|history| - 1].actions
  }

  function Count(acts: seq<Action>, a: Action): nat {
    if acts == [] then 0 else Count(acts[..|acts| - 1], a) + if acts[|acts| - 1] == a then 1 else 0
  }

  /** Requests sent since the episode last opened, reopened or ended. */
  function SendsThisEpisode(acts: seq<Action>): nat {
    if acts == [] then 0
    else
      var last := acts[|acts| - 1];
      if last == OpenGap || last == ReopenGap || EndsEpisode(last) then 0
      else SendsThisEpisode(acts[..|acts| - 1]) + if last == SendRequest then 1 else 0
  }

  /** The counters the machine keeps are the counts its history shows. */
  ghost predicate CountersAgree(m: MState, acts: seq<Action>) {
    m.requests == Count(acts, CommitRequest) && m.attempts == SendsThisEpisode(acts)
  }

  /** The fields no action touches. */
  ghost predicate SameOutside(m: MState, m': MState) {
    && m'.state == m.state && m'.busy == m.busy && m'.candidateActive == m.candidateActive
    && m'.seen == m.seen && m'.history == m.history
  }

  ghost predicate WithinCaps(t: Table, m: MState) {
    m.attempts <= t.episodeAttempts && m.requests <= t.sessionRequests
  }

  ghost predicate QuietSend(m: MState, before: State, gs: Guards) {
    !gs.busy && !m.candidateActive && (before == Open || before == Due)
  }

  /** The fields the history fixes, and the caps. */
  ghost predicate Counted(t: Table, m: MState, past: seq<Action>) {
    CountersAgree(m, past) && WithinCaps(t, m)
  }

  lemma CountersGrow(m: MState, past: seq<Action>, a: Action)
    ensures Count(past + [a], CommitRequest) == Count(past, CommitRequest) + if a == CommitRequest then 1 else 0
    ensures a == OpenGap || a == ReopenGap || EndsEpisode(a) ==> SendsThisEpisode(past + [a]) == 0
    ensures !(a == OpenGap || a == ReopenGap || EndsEpisode(a)) ==>
              SendsThisEpisode(past + [a]) == SendsThisEpisode(past) + if a == SendRequest then 1 else 0
  {
    assert (past + [a])[..|past|] == past;
  }

  lemma SendKeeps(t: Table, m: MState, before: State, gs: Guards, past: seq<Action>)
    requires Counted(t, m, past)
    ensures var (m', ok) := ApplySend(t, m, before, gs);
            SameOutside(m, m') && (ok ==> Counted(t, m', past + [SendRequest]) && QuietSend(m, before, gs))
  {
    CountersGrow(m, past, SendRequest);
  }

  lemma CommitKeeps(t: Table, m: MState, before: State, past: seq<Action>)
    requires Counted(t, m, past)
    ensures var (m', ok) := ApplyCommit(t, m, before);
            SameOutside(m, m') && (ok ==> Counted(t, m', past + [CommitRequest]))
  {
    CountersGrow(m, past, CommitRequest);
  }

  lemma EndKeeps(t: Table, m: MState, a: Action, before: State, past: seq<Action>)
    requires Counted(t, m, past) && EndsEpisode(a)
    ensures var (m', ok) := EndEpisode(m, before);
            SameOutside(m, m') && (ok ==> Counted(t, m', past + [a]))
  {
    CountersGrow(m, past, a);
  }

  lemma PlainKeeps(t: Table, m: MState, a: Action, past: seq<Action>)
    requires Counted(t, m, past) && a != SendRequest && a != CommitRequest && !EndsEpisode(a)
    ensures SameOutside(m, ApplyPlain(m, a)) && Counted(t, ApplyPlain(m, a), past + [a])
  {
    PlainFields(m, a);
    CountersGrow(m, past, a);
  }

  lemma PlainFields(m: MState, a: Action)
    ensures SameOutside(m, ApplyPlain(m, a)) && ApplyPlain(m, a).requests == m.requests
    ensures ApplyPlain(m, a).attempts == if a == OpenGap || a == ReopenGap then 0 else m.attempts
  {
  }

  lemma ApplyKeeps(t: Table, m: MState, a: Action, before: State, gs: Guards, past: seq<Action>)
    requires Counted(t, m, past)
    ensures SameOutside(m, Apply(t, m, a, before, gs).0)
    ensures Apply(t, m, a, before, gs).1 ==> Counted(t, Apply(t, m, a, before, gs).0, past + [a])
    ensures Apply(t, m, a, before, gs).1 && a == SendRequest ==> QuietSend(m, before, gs)
  {
    if a == SendRequest {
      SendKeeps(t, m, before, gs, past);
    } else if a == CommitRequest {
      CommitKeeps(t, m, before, past);
    } else if EndsEpisode(a) {
      EndKeeps(t, m, a, before, past);
    } else {
      PlainKeeps(t, m, a, past);
    }
  }

  lemma FirstAction(past: seq<Action>, actions: seq<Action>)
    requires actions != []
    ensures past + actions == past + [actions[0]] + actions[1..]
    ensures SendRequest in actions <==> actions[0] == SendRequest || SendRequest in actions[1..]
  {
    assert actions == [actions[0]] + actions[1..];
  }

  lemma {:induction false} ApplyAllKeeps(t: Table, m: MState, actions: seq<Action>, before: State, gs: Guards,
                                         past: seq<Action>, all: seq<Action>, m': MState)
    requires Counted(t, m, past) && all == past + actions
    requires ApplyAll(t, m, actions, before, gs) == (m', true)
    ensures SameOutside(m, m') && Counted(t, m', all)
    ensures SendRequest in actions ==> QuietSend(m, before, gs)
    decreases |actions|
  {
    if actions == [] {
      assert all == past;
    } else {
      var (m1, ok) := Apply(t, m, actions[0], before, gs);
      ApplyKeeps(t, m, actions[0], before, gs, past);
      FirstAction(past, actions);
      ApplyAllKeeps(t, m1, actions[1..], before, gs, past + [actions[0]], all, m');
    }
  }

  lemma FinishKeeps(t: Table, m2: MState, before: State, e: Event, row: Row)
    requires Counted(t, m2, Flat(m2.history) + row.actions)
    requires Finish(m2, before, e, row).1.Done?
    ensures var m' := Finish(m2, before, e, row).0;
            Sound(t, m') && CountersAgree(m', Flat(m'.history))
  {
    var m' := Finish(m2, before, e, row).0;
    assert m'.history[..|m2.history|] == m2.history;
  }

  /** What one completed step does to the observable fields and the history. */
  ghost predicate FireEffect(m0: MState, m': MState, actions: seq<Action>) {
    && m'.busy == m0.busy && m'.candidateActive == m0.candidateActive
    && |m'.history| == |m0.history| + 1 && m'.history[..|m0.history|] == m0.history
    && m'.history[|m0.history|].before == m0.state && m'.history[|m0.history|].after == m'.state
    && m'.history[|m0.history|].actions == actions
    && (SendRequest in actions ==>
         !m0.busy && !m0.candidateActive && (m0.state == Open || m0.state == Due) && m'.state == Sending)
  }

  /** What every completed step keeps, and what it did. */
  ghost predicate Kept(t: Table, m0: MState, m': MState, o: Outcome) {
    o.Done? ==>
      Sound(t, m') && CountersAgree(m', Flat(m'.history)) && o.state == m'.state && FireEffect(m0, m', o.actions)
  }

  lemma FinishHasEffect(m0: MState, m2: MState, e: Event, row: Row, gs: Guards)
    requires SameOutside(m0, m2) || (SameOutside(m0.(seen := m2.seen), m2))
    requires SendRequest in row.actions ==> QuietSend(m2, m0.state, gs) && gs.busy == m0.busy
    requires Finish(m2, m0.state, e, row).1.Done?
    ensures FireEffect(m0, Finish(m2, m0.state, e, row).0, row.actions)
    ensures Finish(m2, m0.state, e, row).1 == Done(row.next, row.actions)
    ensures Finish(m2, m0.state, e, row).0.state == row.next
  {
  }

  lemma FireKeeps(t: Table, m0: MState, i: Input, gs: Guards, row: Row)
    requires Counted(t, m0, Flat(m0.history)) && gs.busy == m0.busy
    ensures Kept(t, m0, Fire(t, m0, i, gs, row).0, Fire(t, m0, i, gs, row).1)
  {
    if Fire(t, m0, i, gs, row).1.Done? {
      var m1 := Note(m0, i, gs);
      var m2 := ApplyAll(t, m1, row.actions, m0.state, gs).0;
      ApplyAllKeeps(t, m1, row.actions, m0.state, gs, Flat(m0.history), Flat(m0.history) + row.actions, m2);
      FinishKeeps(t, m2, m0.state, i.event, row);
      FinishHasEffect(m0, m2, i.event, row, gs);
    }
  }

  lemma ObserveKeeps(t: Table, m: MState, e: Event)
    requires Sound(t, m) && CountersAgree(m, Flat(m.history))
    ensures Counted(t, Observe(m, e), Flat(Observe(m, e).history))
  {
  }

  lemma StepKeeps(t: Table, m: MState, i: Input)
    requires Sound(t, m) && CountersAgree(m, Flat(m.history))
    ensures Kept(t, Observe(m, i.event), Step(t, m, i).0, Step(t, m, i).1)
  {
    var m0 := Observe(m, i.event);
    var gs := GuardsOf(t, m0, i);
    ObserveKeeps(t, m, i.event);
    var found := Match(t, m0.state, i.event, gs);
    if |found| == 1 {
      FireKeeps(t, m0, i, gs, t.rows[found[0]]);
    }
  }

  /** The last busy edge of a sequence, and the last edge of the candidate's floor. */
  function BusyAfter(run: seq<Input>): bool {
    if run == [] then false
    else
      var e := run[|run| - 1].event;
      if e == BusyStart then true else if e == BusyEnd then false else BusyAfter(run[..|run| - 1])
  }

  function SpeakingAfter(run: seq<Input>): bool {
    if run == [] then false
    else
      var e := run[|run| - 1].event;
      if e == CandidateStart then true else if e == FloorReleased then false
      else SpeakingAfter(run[..|run| - 1])
  }

  ghost predicate SendIsQuiet(run: seq<Input>, m: MState, k: nat)
    requires k < |run| == |m.history|
  {
    SendRequest in m.history[k].actions ==>
      && !BusyAfter(run[..k + 1]) && !SpeakingAfter(run[..k + 1])
      && (m.history[k].before == Open || m.history[k].before == Due)
      && m.history[k].after == Sending
  }

  ghost predicate RunIsSafe(t: Table, run: seq<Input>, m: MState) {
    Sound(t, m) && CountersAgree(m, Flat(m.history)) && RunIsQuiet(run, m)
  }

  ghost predicate RunIsQuiet(run: seq<Input>, m: MState) {
    && |m.history| == |run|
    && m.busy == BusyAfter(run) && m.candidateActive == SpeakingAfter(run)
    && AllQuiet(run, m)
  }

  ghost predicate AllQuiet(run: seq<Input>, m: MState)
    requires |run| == |m.history|
  {
    forall k :: 0 <= k < |run| ==> SendIsQuiet(run, m, k)
  }

  ghost predicate Extends(front: seq<Input>, i: Input, run: seq<Input>) {
    |run| == |front| + 1 && run[..|front|] == front && run[|front|] == i
  }

  lemma OldSendsStayQuiet(front: seq<Input>, m: MState, run: seq<Input>, m': MState, k: nat)
    requires k < |front| == |m.history| && |front| < |run| == |m'.history| && SendIsQuiet(front, m, k)
    requires run[..|front|] == front && m'.history[..|m.history|] == m.history
    ensures SendIsQuiet(run, m', k)
  {
    assert m'.history[k] == m.history[k];
    assert run[..k + 1] == front[..k + 1];
  }

  lemma EdgesExtend(front: seq<Input>, m: MState, i: Input, run: seq<Input>)
    requires Extends(front, i, run)
    requires m.busy == BusyAfter(front) && m.candidateActive == SpeakingAfter(front)
    ensures Observe(m, i.event).busy == BusyAfter(run)
    ensures Observe(m, i.event).candidateActive == SpeakingAfter(run)
  {
  }

  lemma NewSendIsQuiet(run: seq<Input>, m': MState, k: nat)
    requires k < |run| == |m'.history| && k == |run| - 1
    requires SendRequest in m'.history[k].actions ==> QuietEntry(m'.history[k]) && !BusyAfter(run) && !SpeakingAfter(run)
    ensures SendIsQuiet(run, m', k)
  {
    assert run[..k + 1] == run;
  }

  ghost predicate QuietEntry(e: Entry) {
    (e.before == Open || e.before == Due) && e.after == Sending
  }

  lemma QuietExtends(front: seq<Input>, m: MState, run: seq<Input>, m': MState)
    requires |front| == |m.history| && |run| == |m'.history| == |front| + 1
    requires run[..|front|] == front && m'.history[..|m.history|] == m.history
    requires AllQuiet(front, m) && SendIsQuiet(run, m', |front|)
    ensures AllQuiet(run, m')
  {
    forall k | 0 <= k < |run|
      ensures SendIsQuiet(run, m', k)
    {
      if k < |front| {
        OldSendsStayQuiet(front, m, run, m', k);
      }
    }
  }

  lemma EffectIsQuiet(m0: MState, m': MState, actions: seq<Action>, k: nat)
    requires FireEffect(m0, m', actions) && k == |m0.history|
    ensures SendRequest in m'.history[k].actions ==> QuietEntry(m'.history[k]) && !m0.busy && !m0.candidateActive
  {
  }

  lemma QuietRunExtends(front: seq<Input>, m: MState, i: Input, run: seq<Input>, m': MState, actions: seq<Action>)
    requires Extends(front, i, run) && RunIsQuiet(front, m)
    requires FireEffect(Observe(m, i.event), m', actions)
    ensures RunIsQuiet(run, m')
  {
    var m0 := Observe(m, i.event);
    assert m0.history == m.history;
    EdgesExtend(front, m, i, run);
    EffectIsQuiet(m0, m', actions, |front|);
    NewSendIsQuiet(run, m', |front|);
    QuietExtends(front, m, run, m');
  }

  /** Whatever the table says, a run that completes committed at most the session cap, sent at most
      the episode cap in its current episode, and sent its requests only from OPEN or DUE, into
      SENDING, while neither side was speaking. */
  lemma {:induction false} CompletedRunIsSafe(t: Table, run: seq<Input>)
    requires Run(t, run).Completed?
    ensures RunIsSafe(t, run, Run(t, run).m)
    decreases |run|
  {
    if run != [] {
      var front := run[..|run| - 1];
      var i := run[|run| - 1];
      CompletedRunIsSafe(t, front);
      var m := Run(t, front).m;
      var (m', o) := Step(t, m, i);
      StepKeeps(t, m, i);
      assert Run(t, run) == After(m', o);
      QuietRunExtends(front, m, i, run, m', o.actions);
    }
  }
}
