/** What every request is answered, what is recorded of it, and why an instance stopped taking work
    (scripts/interview-run-budget.py, 441-502 and 509-582). */
module PermitStory {
  import opened Permit
  import opened PermitProgress
  import opened PermitProtocol
  import opened Wrappers

  // ----- answers -----

  ghost predicate Passes(b: Binary, limit: int) {
    b.hash == Same && b.elapsed <= limit
  }

  /** Why a join is refused at the first binary that does not pass. */
  ghost predicate RefusedAt(binaries: seq<Binary>, limit: int, k: int, reason: string) {
    && 0 <= k < |binaries| && !Passes(binaries[k], limit)
    && (forall j :: 0 <= j < k ==> Passes(binaries[j], limit))
    && reason == if binaries[k].hash == Unreadable then "binary_missing"
                 else if binaries[k].hash == Different then "binary_changed:" + binaries[k].role
                 else "join_hash_too_slow"
  }

  lemma {:induction false} JoinNamesTheFirst(binaries: seq<Binary>, limit: int)
    ensures JoinFault(binaries, limit).Some? ==>
              exists k :: RefusedAt(binaries, limit, k, JoinFault(binaries, limit).value)
    decreases |binaries|
  {
    if binaries != [] {
      var rest := binaries[1..];
      if Passes(binaries[0], limit) {
        JoinNamesTheFirst(rest, limit);
        if JoinFault(rest, limit).Some? {
          var reason := JoinFault(rest, limit).value;
          var k :| RefusedAt(rest, limit, k, reason);
          assert forall j :: 1 <= j < |binaries| ==> binaries[j] == rest[j - 1];
          assert RefusedAt(binaries, limit, k + 1, reason);
        }
      } else {
        assert RefusedAt(binaries, limit, 0, JoinFault(binaries, limit).value);
      }
    }
  }

  /** A request with this run's identity that names an action and a number. */
  ghost predicate IsAsk(m: Manifest, request: Request, action: string, number: int) {
    request == Request(m.runId, m.digest, Ask(Some(action), Some(number)))
  }

  ghost predicate InTurn(m: Manifest, s: Service, action: string, number: int) {
    && (action == "end" || action in m.actions) && action !in s.granted
    && number == |s.granted| + 1 && number <= m.ceiling
  }

  /** A request is wrong in itself, and how. */
  ghost predicate WrongBecause(m: Manifest, s: Service, request: Request, at: Moment, reason: string) {
    match reason
    case "malformed_request" =>
      request.Garbled? || (request.runId == m.runId && request.digest == m.digest && request.op.Ask?
                           && (request.op.action.None? || request.op.number.None?))
    case "run_identity_mismatch" => request.Request? && !(request.runId == m.runId && request.digest == m.digest)
    case "unknown_action" =>
      exists a, n :: IsAsk(m, request, a, n) && a != "end" && a !in m.actions
    case "duplicate_action" =>
      exists a, n :: IsAsk(m, request, a, n) && (a == "end" || a in m.actions) && a in s.granted
    case "sequence_mismatch" =>
      exists a, n :: IsAsk(m, request, a, n) && (a == "end" || a in m.actions) && a !in s.granted
                     && !InTurn(m, s, a, n)
    case _ =>
      exists n, k :: IsAsk(m, request, "candidate_join", n) && InTurn(m, s, "candidate_join", n) && s.phase == Open
                     && OnTime(at) && at.verifyJoin && RefusedAt(at.binaries, at.limit, k, reason)
  }

  /** A request in turn that the instance no longer takes. */
  ghost predicate TooLate(m: Manifest, s: Service, request: Request, at: Moment, reason: string) {
    exists a, n :: IsAsk(m, request, a, n) && InTurn(m, s, a, n)
                   && if s.phase == Closed then reason == "closed"
                      else a != "end" && (s.phase == Draining || !OnTime(at)) && reason == "draining"
  }

  /** What a decision records: a wrong request is a fault on the ledger; one that only comes too late is
      not, though it may begin the drain; both are on the list of denials. */
  ghost predicate Recorded(m: Manifest, s: Service, request: Request, at: Moment, s': Service, reply: Reply) {
    match reply
    case Denied(reason) =>
      || (WrongBecause(m, s, request, at, reason)
          && s'.ledger == s.ledger + [Fault(reason)] && s'.denials == s.denials + [reason])
      || (TooLate(m, s, request, at, reason)
          && s'.ledger == s.ledger + (if s.phase == Open then [Drain("wall_budget")] else [])
          && s'.denials == s.denials + ["not_open:" + reason])
    case Permitted(a, n) =>
      && IsAsk(m, request, a, n) && s'.denials == s.denials
      && s'.ledger == s.ledger + (if s.phase == Open && !OnTime(at) then [Drain("wall_budget")] else []) + [Grant(a, n)]
    case Pong(phase) => s' == s && request == Request(m.runId, m.digest, Ping) && phase == s.phase
    case Counted(phase, count) =>
      s' == s && request == Request(m.runId, m.digest, Status) && phase == s.phase && count == |s.granted|
  }

  lemma WrongIsRecorded(m: Manifest, s: Service, request: Request, at: Moment, reason: string)
    requires WrongBecause(m, s, request, at, reason)
    ensures Recorded(m, s, request, at, RaiseFault(s, reason).0, RaiseFault(s, reason).1)
  {
  }

  lemma AskIsRecorded(m: Manifest, s: Service, request: Request, action: string, number: int, at: Moment)
    requires IsAsk(m, request, action, number)
    ensures var (s', reply) := DecidePermit(m, s, action, number, at);
            Recorded(m, s, request, at, s', reply)
  {
    match PermitFault(m, s, action, number) {
      case Some(reason) => WrongIsRecorded(m, s, request, at, reason);
      case None =>
        var s1 := AtDeadline(s, at);
        assert InTurn(m, s, action, number);
        if action == JOIN_ACTION_ID && at.verifyJoin && s1.phase == Open {
          JoinNamesTheFirst(at.binaries, at.limit);
          var refusal := JoinFault(at.binaries, at.limit);
          if refusal.Some? {
            JoinReasons(at.binaries, at.limit);
            WrongIsRecorded(m, s, request, at, refusal.value);
          }
        }
        assert s.ledger + [] == s.ledger;
    }
  }

  lemma JoinReasons(binaries: seq<Binary>, limit: int)
    requires JoinFault(binaries, limit).Some?
    ensures var r := JoinFault(binaries, limit).value;
            && r != "malformed_request" && r != "run_identity_mismatch" && r != "unknown_action"
            && r != "duplicate_action" && r != "sequence_mismatch"
  {
    JoinNamesTheFirst(binaries, limit);
    var k :| RefusedAt(binaries, limit, k, JoinFault(binaries, limit).value);
    if binaries[k].hash == Different {
      assert ("binary_changed:" + binaries[k].role)[0] == 'b';
    }
  }

  /** Every request: what it is answered and what is recorded of it. */
  lemma DecisionIsRecorded(m: Manifest, s: Service, request: Request, at: Moment)
    ensures Recorded(m, s, request, at, Decide(m, s, request, at).0, Decide(m, s, request, at).1)
  {
    if request.Request? && request.runId == m.runId && request.digest == m.digest && request.op.Ask?
       && request.op.action.Some? && request.op.number.Some?
    {
      AskIsRecorded(m, s, request, request.op.action.value, request.op.number.value, at);
    } else if Decide(m, s, request, at).1.Denied? {
      WrongIsRecorded(m, s, request, at, Decide(m, s, request, at).1.reason);
    }
  }

  // ----- why an instance stopped -----

  /** Where an instance stands, and why. */
  datatype Standing = Standing(phase: Phase, reason: Option<string>)

  /** A drain or a fault ends the open phase and gives the reason; a close ends everything and gives its
      own. */
  function Told(start: Standing, events: seq<Event>): Standing {
    if events == [] then start
    else
      var before := Told(start, events[..|events| - 1]);
      match events[|events| - 1]
      case Close(reason) => if before.phase == Closed then before else Standing(Closed, Some(reason))
      case Drain(reason) => if before.phase == Open then Standing(Draining, Some(reason)) else before
      case Fault(reason) => if before.phase == Open then Standing(Draining, Some(reason)) else before
      case _ => before
  }

  function LastFault(ledger: seq<Event>): Option<string> {
    if ledger == [] then None
    else if ledger[|ledger| - 1].Fault? then Some(ledger[|ledger| - 1].reason)
    else LastFault(ledger[..|ledger| - 1])
  }

  function FirstFault(events: seq<Event>): Option<string> {
    if events == [] then None else if events[0].Fault? then Some(events[0].reason) else FirstFault(events[1..])
  }

  /** The fault an instance keeps: the last one on the ledger it found, else the first of its own. */
  function KeptFault(found: seq<Event>, own: seq<Event>): Option<string> {
    if LastFault(found).Some? then LastFault(found) else FirstFault(own)
  }

  /** How an instance starts on the ledger it finds. */
  function Start(found: seq<Event>): Standing {
    if LastFault(found).Some? then Standing(Draining, LastFault(found)) else Standing(Open, None)
  }

  /** A drain is recorded only while open and a close only once. */
  ghost predicate Sparing(start: Standing, events: seq<Event>) {
    forall k :: 0 <= k < |events| ==>
      && (events[k].Drain? ==> Told(start, events[..k]).phase == Open)
      && (events[k].Close? ==> Told(start, events[..k]).phase != Closed)
  }

  /** The ledger an instance found, and what it has added, tell its phase, the reason and the fault. */
  ghost predicate LedgerTells(s: Service, found: seq<Event>, own: seq<Event>) {
    && s.ledger == found + own
    && Standing(s.phase, s.phaseReason) == Told(Start(found), own)
    && s.fault == KeptFault(found, own)
    && Sparing(Start(found), own)
  }

  lemma ToldNext(start: Standing, own: seq<Event>, e: Event)
    ensures Told(start, own + [e]) ==
            var before := Told(start, own);
            if e.Close? && before.phase != Closed then Standing(Closed, Some(e.reason))
            else if (e.Drain? || e.Fault?) && before.phase == Open then Standing(Draining, Some(e.reason))
            else before
  {
    assert (own + [e])[..|own|] == own;
  }

  lemma {:induction false} FirstFaultNext(own: seq<Event>, e: Event)
    ensures FirstFault(own + [e]) ==
            if FirstFault(own).Some? then FirstFault(own) else if e.Fault? then Some(e.reason) else None
    decreases |own|
  {
    if own == [] {
      assert [e][1..] == [];
    } else {
      assert (own + [e])[1..] == own[1..] + [e];
      FirstFaultNext(own[1..], e);
    }
  }

  lemma SparingNext(start: Standing, own: seq<Event>, e: Event)
    requires Sparing(start, own)
    requires e.Drain? ==> Told(start, own).phase == Open
    requires e.Close? ==> Told(start, own).phase != Closed
    ensures Sparing(start, own + [e])
  {
    var more := own + [e];
    assert more[..|own|] == own;
    assert forall k :: 0 <= k < |own| ==> more[..k] == own[..k] && more[k] == own[k];
  }

  /** One event more. */
  lemma TellsNext(s: Service, found: seq<Event>, own: seq<Event>, s': Service, e: Event)
    requires LedgerTells(s, found, own) && s'.ledger == s.ledger + [e]
    requires e.Drain? ==> s.phase == Open
    requires e.Close? ==> s.phase != Closed
    requires Standing(s'.phase, s'.phaseReason) ==
             if e.Close? then Standing(Closed, Some(e.reason))
             else if (e.Drain? || e.Fault?) && s.phase == Open then Standing(Draining, Some(e.reason))
             else Standing(s.phase, s.phaseReason)
    requires s'.fault == if e.Fault? && s.fault.None? then Some(e.reason) else s.fault
    ensures LedgerTells(s', found, own + [e])
  {
    hide Told, FirstFault, LastFault, Sparing, Start;
    ToldNext(Start(found), own, e);
    FirstFaultNext(own, e);
    SparingNext(Start(found), own, e);
    assert s'.ledger == found + (own + [e]);
  }

  /** An instance's own events grow. */
  ghost predicate TellsOn(s': Service, found: seq<Event>, own: seq<Event>) {
    exists more: seq<Event> :: own <= more && LedgerTells(s', found, more)
  }

  lemma TellsOnBy(s': Service, found: seq<Event>, own: seq<Event>, more: seq<Event>)
    requires own <= more && LedgerTells(s', found, more)
    ensures TellsOn(s', found, own)
  {
  }

  lemma FaultTells(s: Service, found: seq<Event>, own: seq<Event>, reason: string)
    requires LedgerTells(s, found, own)
    ensures TellsOn(RaiseFault(s, reason).0, found, own)
  {
    TellsNext(s, found, own, RaiseFault(s, reason).0, Fault(reason));
    TellsOnBy(RaiseFault(s, reason).0, found, own, own + [Fault(reason)]);
  }

  lemma DrainTells(s: Service, found: seq<Event>, own: seq<Event>, reason: string) returns (more: seq<Event>)
    requires LedgerTells(s, found, own)
    ensures own <= more && LedgerTells(BeginDrain(s, reason), found, more)
  {
    more := own;
    if s.phase == Open {
      more := own + [Drain(reason)];
      TellsNext(s, found, own, BeginDrain(s, reason), Drain(reason));
    }
  }

  lemma CloseTells(s: Service, found: seq<Event>, own: seq<Event>, reason: string)
    requires LedgerTells(s, found, own)
    ensures TellsOn(EndAll(s, reason), found, own)
  {
    if s.phase != Closed {
      TellsNext(s, found, own, EndAll(s, reason), Close(reason));
      TellsOnBy(EndAll(s, reason), found, own, own + [Close(reason)]);
    } else {
      TellsOnBy(s, found, own, own);
    }
  }

  lemma AdmitTells(s: Service, found: seq<Event>, own: seq<Event>, action: string, number: int, at: Moment)
    requires LedgerTells(s, found, own)
    ensures TellsOn(Admit(s, action, number, at).0, found, own)
  {
    var (s', reply) := Admit(s, action, number, at);
    if reply.Permitted? {
      TellsNext(s, found, own, s', Grant(action, number));
      TellsOnBy(s', found, own, own + [Grant(action, number)]);
    } else if s'.ledger == s.ledger {
      TellsOnBy(s', found, own, own);
    } else {
      FaultTells(s, found, own, reply.reason);
    }
  }

  lemma DecisionTells(m: Manifest, s: Service, found: seq<Event>, own: seq<Event>, request: Request, at: Moment)
    requires LedgerTells(s, found, own)
    ensures TellsOn(Decide(m, s, request, at).0, found, own)
  {
    if request.Request? && request.runId == m.runId && request.digest == m.digest && request.op.Ask?
       && request.op.action.Some? && request.op.number.Some?
       && PermitFault(m, s, request.op.action.value, request.op.number.value).None?
    {
      var more, s1 := own, AtDeadline(s, at);
      if IsLate(at) {
        more := DrainTells(s, found, own, "wall_budget");
      }
      AdmitTells(s1, found, more, request.op.action.value, request.op.number.value, at);
      assert Decide(m, s, request, at) == Admit(s1, request.op.action.value, request.op.number.value, at);
      var most: seq<Event> :| more <= most && LedgerTells(Decide(m, s, request, at).0, found, most);
      TellsOnBy(Decide(m, s, request, at).0, found, own, most);
    } else if Decide(m, s, request, at).1.Denied? {
      FaultTells(s, found, own, Decide(m, s, request, at).1.reason);
    } else {
      TellsOnBy(s, found, own, own);
    }
  }

  /** A restart tells the story anew, from the ledger it finds. */
  lemma {:induction false} ReplayTells(s: Service, ledger: seq<Event>)
    requires s.phase == Open && s.phaseReason == None && s.fault == None
    ensures var r := ReplayFrom(s, ledger);
            Standing(r.phase, r.phaseReason) == Start(ledger) && r.fault == LastFault(ledger)
    decreases |ledger|
  {
    if ledger != [] {
      ReplayTells(s, ledger[..|ledger| - 1]);
    }
  }

  lemma RestartTells(ledger: seq<Event>)
    ensures LedgerTells(Replay(ledger), ledger, [])
  {
    ReplayTells(Blank(ledger), ledger);
    RestartKeepsGrantsAndFaults(Blank(ledger), ledger);
    assert ledger + [] == ledger;
  }

  lemma StepTells(m: Manifest, w: World, step: Step, found: seq<Event>, own: seq<Event>)
    requires LedgerTells(w.service, found, own) && !step.RestartLauncher?
    ensures TellsOn(Next(m, w, step).service, found, own)
  {
    match step {
      case Serve(conn, at) =>
        if conn in w.conns && w.conns[conn].reply.None? {
          DecisionTells(m, w.service, found, own, w.conns[conn].request, at);
        } else {
          TellsOnBy(w.service, found, own, own);
        }
      case Stray(request, at) => DecisionTells(m, w.service, found, own, request, at);
      case DrainRun(reason) =>
        var more := DrainTells(w.service, found, own, reason);
        TellsOnBy(Next(m, w, step).service, found, own, more);
      case CloseRun(reason) => CloseTells(w.service, found, own, reason);
      case _ => TellsOnBy(w.service, found, own, own);
    }
  }

  lemma {:induction false} RunTells(m: Manifest, w: World, steps: seq<Step>, found: seq<Event>, own: seq<Event>)
    requires LedgerTells(w.service, found, own) && NoRestart(steps)
    ensures TellsOn(PermitProtocol.Run(m, w, steps).service, found, own)
    decreases |steps|
  {
    if steps == [] {
      TellsOnBy(w.service, found, own, own);
    } else {
      var w1 := Next(m, w, steps[0]);
      StepTells(m, w, steps[0], found, own);
      var more: seq<Event> :| own <= more && LedgerTells(w1.service, found, more);
      RunTells(m, w1, steps[1..], found, more);
      var most: seq<Event> :| more <= most && LedgerTells(PermitProtocol.Run(m, w1, steps[1..]).service, found, most);
      TellsOnBy(PermitProtocol.Run(m, w1, steps[1..]).service, found, own, most);
    }
  }

  /** From any restart on, whatever happens, the ledger tells the instance's phase, why it left the one
      before, and which fault it keeps; and no drain or close is recorded twice over. */
  lemma InstanceIsTold(m: Manifest, w: World, steps: seq<Step>)
    requires NoRestart(steps)
    ensures TellsOn(PermitProtocol.Run(m, Next(m, w, RestartLauncher), steps).service, w.service.ledger, [])
  {
    RestartTells(w.service.ledger);
    RunTells(m, Next(m, w, RestartLauncher), steps, w.service.ledger, []);
  }

  // ----- what stops a run, in every reachable world -----

  /** Once the run is closed nothing is granted again in that instance, and once it is drained at most the
      final action. */
  lemma StoppedRunStays(m: Manifest, before: seq<Step>, reason: string, steps: seq<Step>)
    requires NoRestart(steps)
    ensures var w := PermitProtocol.Run(m, Init(), before);
            NoGrant(PermitProtocol.Run(m, Next(m, w, CloseRun(reason)), steps).service.ledger, |w.service.ledger|)
    ensures var w := PermitProtocol.Run(m, Init(), before);
            OnlyFinal(PermitProtocol.Run(m, Next(m, w, DrainRun(reason)), steps).service.ledger, |w.service.ledger|)
  {
    var w := PermitProtocol.Run(m, Init(), before);
    var closed, drained := Next(m, w, CloseRun(reason)), Next(m, w, DrainRun(reason));
    InitIsSound(m);
    RunKeepsInv(m, Init(), before);
    StepKeepsInv(m, w, CloseRun(reason));
    StepKeepsInv(m, w, DrainRun(reason));
    DrainAndCloseHold(m, closed, steps);
    DrainAndCloseHold(m, drained, steps);
    KeepsNoGrant(w.service.ledger, closed.service.ledger, PermitProtocol.Run(m, closed, steps).service.ledger);
    KeepsOnlyFinal(w.service.ledger, drained.service.ledger, PermitProtocol.Run(m, drained, steps).service.ledger);
  }

  lemma KeepsNoGrant(a: seq<Event>, b: seq<Event>, c: seq<Event>)
    requires a <= b <= c && NoGrant(b, |a|) && NoGrant(c, |b|)
    ensures NoGrant(c, |a|)
  {
    assert forall k :: |a| <= k < |b| ==> c[k] == b[k];
  }

  lemma KeepsOnlyFinal(a: seq<Event>, b: seq<Event>, c: seq<Event>)
    requires a <= b <= c && OnlyFinal(b, |a|) && OnlyFinal(c, |b|)
    ensures OnlyFinal(c, |a|)
  {
    assert forall k :: |a| <= k < |b| ==> c[k] == b[k];
  }

  /** One wrong request, from a worker or from anything else, ends all work but the final action for good,
      restarts included. */
  lemma WrongRequestStopsWork(m: Manifest, before: seq<Step>, request: Request, at: Moment, reason: string, steps: seq<Step>)
    requires WrongBecause(m, PermitProtocol.Run(m, Init(), before).service, request, at, reason)
    ensures var w := PermitProtocol.Run(m, Init(), before);
            var after := PermitProtocol.Run(m, Next(m, w, Stray(request, at)), steps).service.ledger;
            OnlyFinal(after, |w.service.ledger|) && AtMostOneGrant(after, |w.service.ledger|)
  {
    var w := PermitProtocol.Run(m, Init(), before);
    var w1 := Next(m, w, Stray(request, at));
    InitIsSound(m);
    RunKeepsInv(m, Init(), before);
    StepKeepsInv(m, w, Stray(request, at));
    WrongIsFault(m, w.service, request, at, reason);
    assert w1.service.ledger == w.service.ledger + [Fault(reason)];
    FaultGrows(w.service.ledger, Fault(reason));
    FaultIsForever(m, w1, steps);
    var after := PermitProtocol.Run(m, w1, steps).service.ledger;
    KeepsOnlyFinal(w.service.ledger, w1.service.ledger, after);
    RunKeepsInv(m, w1, steps);
    OnlyFinalIsOne(m, after, |w.service.ledger|);
  }

  /** What is wrong about a request decides its answer. */
  lemma WrongIsFault(m: Manifest, s: Service, request: Request, at: Moment, reason: string)
    requires WrongBecause(m, s, request, at, reason)
    ensures Decide(m, s, request, at) == RaiseFault(s, reason)
  {
    match reason {
      case "malformed_request" =>
      case "run_identity_mismatch" =>
      case "unknown_action" =>
      case "duplicate_action" =>
      case "sequence_mismatch" =>
      case _ => FirstRefusalIsFault(at.binaries, at.limit, reason);
    }
  }

  lemma FirstRefusalIsFault(binaries: seq<Binary>, limit: int, reason: string)
    requires exists k :: RefusedAt(binaries, limit, k, reason)
    ensures JoinFault(binaries, limit) == Some(reason)
  {
    var k :| RefusedAt(binaries, limit, k, reason);
    JoinFaultsExactly(binaries, limit);
    JoinNamesTheFirst(binaries, limit);
    if JoinFault(binaries, limit).Some? {
      var j :| RefusedAt(binaries, limit, j, JoinFault(binaries, limit).value);
      assert j == k;
    }
  }

  /** A guard that gave up, was refused or lost its answer stays dead whatever happens. */
  lemma {:induction false} DeadGuardStaysDead(m: Manifest, w: World, id: nat, steps: seq<Step>)
    requires Inv(m, w) && id in w.guards && w.guards[id] == Dead
    ensures var w' := PermitProtocol.Run(m, w, steps); id in w'.guards ==> w'.guards[id] == Dead
    decreases |steps|
  {
    if steps != [] {
      var w1 := Next(m, w, steps[0]);
      StepKeepsInv(m, w, steps[0]);
      if id in w1.guards {
        DeadGuardStaysDead(m, w1, id, steps[1..]);
      } else {
        GoneGuardStaysGone(m, w1, id, steps[1..]);
      }
    }
  }

  lemma {:induction false} GoneGuardStaysGone(m: Manifest, w: World, id: nat, steps: seq<Step>)
    requires Inv(m, w) && id !in w.guards && id < w.next
    ensures id !in PermitProtocol.Run(m, w, steps).guards
    decreases |steps|
  {
    if steps != [] {
      StepKeepsInv(m, w, steps[0]);
      GoneGuardStaysGone(m, Next(m, w, steps[0]), id, steps[1..]);
    }
  }

  /** A worker that gives up before it holds a permit never dispatches through that guard again. */
  lemma GivenUpStaysDead(m: Manifest, before: seq<Step>, id: nat, steps: seq<Step>)
    requires var w := PermitProtocol.Run(m, Init(), before); id in w.guards && !w.guards[id].Holding?
    ensures var w' := PermitProtocol.Run(m, Next(m, PermitProtocol.Run(m, Init(), before), GiveUp(id)), steps);
            id in w'.guards ==> w'.guards[id] == Dead
  {
    var w := PermitProtocol.Run(m, Init(), before);
    InitIsSound(m);
    RunKeepsInv(m, Init(), before);
    StepKeepsInv(m, w, GiveUp(id));
    DeadGuardStaysDead(m, Next(m, w, GiveUp(id)), id, steps);
  }
}
