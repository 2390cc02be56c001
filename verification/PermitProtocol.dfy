/** Workers, launcher and lossy connections around the permit service
    (scripts/interview-run-budget.py, 397-582 and 662-757). */
module PermitProtocol {
  import opened Permit
  import opened Wrappers

  // ----- what every ledger shows -----

  /** A ledger only ever gains a grant of an allowed, ungranted action with the next number, within the
      ceiling, and after a fault only the final action. */
  ghost predicate WellKept(m: Manifest, ledger: seq<Event>) {
    ledger == [] ||
    var front, last := ledger[..|ledger| - 1], ledger[|ledger| - 1];
    WellKept(m, front) && (last.Grant? ==> MayGrant(m, front, last.action, last.number))
  }

  ghost predicate MayGrant(m: Manifest, ledger: seq<Event>, action: string, number: int) {
    && Allowed(m, action) && action !in Granted(ledger)
    && number == |Granted(ledger)| + 1 <= m.ceiling
    && (HasFault(ledger) ==> action == FINAL_ACTION_ID)
  }

  function Grants(ledger: seq<Event>): seq<Event> {
    if ledger == [] then []
    else Grants(ledger[..|ledger| - 1]) + if ledger[|ledger| - 1].Grant? then [ledger[|ledger| - 1]] else []
  }

  /** The granted numbers are exactly 1..n in ledger order, n is at most the ceiling, and no action is
      granted twice. */
  lemma {:induction false} GrantsAreNumbered(m: Manifest, ledger: seq<Event>)
    requires WellKept(m, ledger) && m.ceiling >= 0
    ensures |Grants(ledger)| == |Granted(ledger)| <= m.ceiling
    ensures forall k :: 0 <= k < |Grants(ledger)| ==>
              && Grants(ledger)[k].Grant? && Grants(ledger)[k].number == k + 1
              && Grants(ledger)[k].action in Granted(ledger) && Allowed(m, Grants(ledger)[k].action)
    ensures forall i, j :: 0 <= i < j < |Grants(ledger)| ==> Grants(ledger)[i].action != Grants(ledger)[j].action
    decreases |ledger|
  {
    if ledger != [] {
      var front, last := ledger[..|ledger| - 1], ledger[|ledger| - 1];
      GrantsAreNumbered(m, front);
      if last.Grant? {
        assert MayGrant(m, front, last.action, last.number);
        assert Granted(ledger).Keys == Granted(front).Keys + {last.action};
        assert |Granted(ledger)| == |Granted(ledger).Keys|;
        assert Grants(ledger) == Grants(front) + [last];
      }
    }
  }

  // ----- one instance of the service -----

  /** The service agrees with its ledger, and a fault on it has stopped new work. */
  ghost predicate ServiceSound(m: Manifest, s: Service) {
    && WellKept(m, s.ledger) && s.granted == Granted(s.ledger)
    && (HasFault(s.ledger) ==> s.phase != Open)
    && (s.fault.Some? <==> HasFault(s.ledger))
  }

  lemma AppendsPlain(m: Manifest, ledger: seq<Event>, e: Event)
    requires WellKept(m, ledger) && !e.Grant?
    ensures WellKept(m, ledger + [e]) && Granted(ledger + [e]) == Granted(ledger)
  {
    assert (ledger + [e])[..|ledger|] == ledger;
  }

  lemma AppendsGrant(m: Manifest, ledger: seq<Event>, action: string, number: int)
    requires WellKept(m, ledger) && MayGrant(m, ledger, action, number)
    ensures WellKept(m, ledger + [Grant(action, number)])
    ensures Granted(ledger + [Grant(action, number)]) == Granted(ledger)[action := number]
  {
    assert (ledger + [Grant(action, number)])[..|ledger|] == ledger;
  }

  /** Within an instance phases only move on, and what a step adds to the ledger depends on the phase. */
  ghost predicate StepOf(s: Service, s': Service) {
    && s.ledger <= s'.ledger
    && (s.phase != Open ==> s'.phase != Open) && (s.phase == Closed ==> s'.phase == Closed)
    && (s.phase != Open ==> OnlyFinal(s'.ledger, |s.ledger|))
    && (s.phase == Closed ==> NoGrant(s'.ledger, |s.ledger|))
  }

  ghost predicate OnlyFinal(ledger: seq<Event>, from: nat) {
    forall k :: from <= k < |ledger| && ledger[k].Grant? ==> ledger[k].action == FINAL_ACTION_ID
  }

  ghost predicate NoGrant(ledger: seq<Event>, from: nat) {
    forall k :: from <= k < |ledger| ==> !ledger[k].Grant?
  }

  /** One event that grants nothing, with the phase moving on. */
  lemma AppendIsSound(m: Manifest, s: Service, s': Service, e: Event)
    requires ServiceSound(m, s) && !e.Grant?
    requires s'.ledger == s.ledger + [e] && s'.granted == s.granted && s'.phase != Open
    requires s.phase == Closed ==> s'.phase == Closed
    requires s'.fault.Some? <==> s.fault.Some? || e.Fault?
    ensures ServiceSound(m, s') && StepOf(s, s')
  {
    AppendsPlain(m, s.ledger, e);
    FaultGrows(s.ledger, e);
  }

  lemma FaultIsSound(m: Manifest, s: Service, reason: string)
    requires ServiceSound(m, s)
    ensures ServiceSound(m, RaiseFault(s, reason).0) && StepOf(s, RaiseFault(s, reason).0)
    ensures RaiseFault(s, reason).0.granted == s.granted
  {
    AppendIsSound(m, s, RaiseFault(s, reason).0, Fault(reason));
  }

  lemma DrainIsSound(m: Manifest, s: Service, reason: string)
    requires ServiceSound(m, s)
    ensures ServiceSound(m, BeginDrain(s, reason)) && StepOf(s, BeginDrain(s, reason))
    ensures BeginDrain(s, reason).granted == s.granted && BeginDrain(s, reason).phase != Open
  {
    if s.phase == Open {
      AppendIsSound(m, s, BeginDrain(s, reason), Drain(reason));
    }
  }

  lemma CloseIsSound(m: Manifest, s: Service, reason: string)
    requires ServiceSound(m, s)
    ensures ServiceSound(m, EndAll(s, reason)) && StepOf(s, EndAll(s, reason))
    ensures EndAll(s, reason).granted == s.granted && EndAll(s, reason).phase == Closed
  {
    if s.phase != Closed {
      AppendIsSound(m, s, EndAll(s, reason), Close(reason));
    }
  }

  lemma StepOfCompose(s: Service, s1: Service, s2: Service)
    requires StepOf(s, s1) && StepOf(s1, s2)
    ensures StepOf(s, s2)
  {
    forall k | |s.ledger| <= k < |s2.ledger| && s2.ledger[k].Grant? && s.phase != Open
      ensures s2.ledger[k].action == FINAL_ACTION_ID && s.phase != Closed
    {
      if k < |s1.ledger| {
        assert s1.ledger[k] == s2.ledger[k];
      }
    }
  }

  lemma GrantSteps(s: Service, s': Service, e: Event)
    requires s'.ledger == s.ledger + [e] && s'.phase == s.phase && s.phase != Closed
    requires s.phase != Open ==> e.Grant? && e.action == FINAL_ACTION_ID
    ensures StepOf(s, s')
  {
  }

  lemma GrantIsSound(m: Manifest, s: Service, action: string, number: int)
    requires ServiceSound(m, s) && Allowed(m, action) && action !in s.granted
    requires number == |s.granted| + 1 <= m.ceiling
    requires s.phase == Open || (s.phase == Draining && action == FINAL_ACTION_ID)
    ensures var s' := Record(s.(granted := s.granted[action := number]), Grant(action, number));
            ServiceSound(m, s') && StepOf(s, s')
  {
    var s' := Record(s.(granted := s.granted[action := number]), Grant(action, number));
    assert MayGrant(m, s.ledger, action, number);
    AppendsGrant(m, s.ledger, action, number);
    FaultGrows(s.ledger, Grant(action, number));
    GrantSteps(s, s', Grant(action, number));
  }

  /** What a decision may do: nothing to the grants, or exactly the one it replies with. */
  ghost predicate GrantsWhatItSays(s: Service, s': Service, reply: Reply) {
    if reply.Permitted?
    then reply.action !in s.granted && s'.granted == s.granted[reply.action := reply.number]
    else s'.granted == s.granted
  }

  /** A decision keeps the ledger well kept, moves the phase only onward, and grants what it says. */
  ghost predicate DecisionSound(m: Manifest, s: Service, r: (Service, Reply)) {
    ServiceSound(m, r.0) && StepOf(s, r.0) && GrantsWhatItSays(s, r.0, r.1)
  }

  lemma RefusalIsSound(m: Manifest, s: Service, reason: string)
    requires ServiceSound(m, s)
    ensures DecisionSound(m, s, RaiseFault(s, reason))
  {
    FaultIsSound(m, s, reason);
  }

  lemma AfterDrain(m: Manifest, s: Service, s1: Service, r: (Service, Reply))
    requires StepOf(s, s1) && s1.granted == s.granted && DecisionSound(m, s1, r)
    ensures DecisionSound(m, s, r)
  {
    StepOfCompose(s, s1, r.0);
  }

  lemma AdmitIsSound(m: Manifest, s: Service, action: string, number: int, at: Moment)
    requires ServiceSound(m, s) && Allowed(m, action) && action !in s.granted
    requires number == |s.granted| + 1 <= m.ceiling
    ensures DecisionSound(m, s, Admit(s, action, number, at))
  {
    if !(s.phase == Closed || (s.phase == Draining && action != FINAL_ACTION_ID)) {
      var refusal := if action == JOIN_ACTION_ID && at.verifyJoin then JoinFault(at.binaries, at.limit) else None;
      if refusal.Some? {
        RefusalIsSound(m, s, refusal.value);
      } else {
        GrantIsSound(m, s, action, number);
      }
    }
  }

  lemma AtDeadlineIsSound(m: Manifest, s: Service, at: Moment)
    requires ServiceSound(m, s)
    ensures ServiceSound(m, AtDeadline(s, at)) && StepOf(s, AtDeadline(s, at))
    ensures AtDeadline(s, at).granted == s.granted
  {
    DrainIsSound(m, s, "wall_budget");
  }

  lemma DecidePermitIsSound(m: Manifest, s: Service, action: string, number: int, at: Moment)
    requires ServiceSound(m, s)
    ensures DecisionSound(m, s, DecidePermit(m, s, action, number, at))
  {
    match PermitFault(m, s, action, number)
    case Some(reason) => RefusalIsSound(m, s, reason);
    case None =>
      AtDeadlineIsSound(m, s, at);
      AdmitIsSound(m, AtDeadline(s, at), action, number, at);
      AfterDrain(m, s, AtDeadline(s, at), Admit(AtDeadline(s, at), action, number, at));
  }

  lemma DecideIsSound(m: Manifest, s: Service, request: Request, at: Moment)
    requires ServiceSound(m, s)
    ensures DecisionSound(m, s, Decide(m, s, request, at))
  {
    if request.Garbled? {
      RefusalIsSound(m, s, "malformed_request");
    } else if request.runId != m.runId || request.digest != m.digest {
      RefusalIsSound(m, s, "run_identity_mismatch");
    } else if request.op.Ask? {
      if request.op.action.None? || request.op.number.None? {
        RefusalIsSound(m, s, "malformed_request");
      } else {
        DecidePermitIsSound(m, s, request.op.action.value, request.op.number.value, at);
      }
    }
  }

  lemma RestartIsSound(m: Manifest, s: Service)
    requires ServiceSound(m, s)
    ensures ServiceSound(m, Replay(s.ledger)) && Replay(s.ledger).granted == s.granted
    ensures Replay(s.ledger).ledger == s.ledger
    ensures Replay(s.ledger).phase == Open <==> !HasFault(s.ledger)
  {
    RestartKeepsGrantsAndFaults(Blank(s.ledger), s.ledger);
  }

  // ----- the ceiling and the reserved final action -----

  lemma {:induction false} SubsetSize(a: set<string>, b: set<string>)
    requires a <= b
    ensures |a| <= |b|
    decreases a
  {
    if a != {} {
      var x :| x in a;
      SubsetSize(a - {x}, b - {x});
    }
  }

  lemma {:induction false} DistinctSize(s: seq<string>)
    requires Distinct(s)
    ensures |set a | a in s| == |s|
    decreases |s|
  {
    if s != [] {
      var front, last := s[..|s| - 1], s[|s| - 1];
      assert s == front + [last];
      DistinctGrows(front, last);
      DistinctSize(front);
      assert (set a | a in s) == (set a | a in front) + {last};
    } else {
      assert (set a | a in s) == {};
    }
  }

  lemma {:induction false} GrantedAreAllowed(m: Manifest, ledger: seq<Event>)
    requires WellKept(m, ledger)
    ensures forall a <- Granted(ledger) :: Allowed(m, a)
    decreases |ledger|
  {
    if ledger != [] {
      GrantedAreAllowed(m, ledger[..|ledger| - 1]);
    }
  }

  /** A valid ceiling leaves room for every allowed action not yet granted. */
  lemma CeilingLeavesRoom(m: Manifest, s: Service, action: string)
    requires ValidActions(m.actions, m.ceiling) && ServiceSound(m, s)
    requires Allowed(m, action) && action !in s.granted
    ensures |s.granted| + 1 <= m.ceiling
  {
    var listed := set a | a in m.actions;
    DistinctSize(m.actions);
    GrantedAreAllowed(m, s.ledger);
    assert s.granted.Keys + {action} <= listed + {FINAL_ACTION_ID};
    SubsetSize(s.granted.Keys + {action}, listed + {FINAL_ACTION_ID});
    assert |s.granted.Keys + {action}| == |s.granted| + 1;
  }

  /** The final action, asked for with the next number, is permitted. */
  ghost predicate FinalIsGranted(m: Manifest, s: Service, at: Moment) {
    var ask := Request(m.runId, m.digest, Ask(Some(FINAL_ACTION_ID), Some(|s.granted| + 1)));
    Decide(m, s, ask, at).1 == Permitted(FINAL_ACTION_ID, |s.granted| + 1)
  }

  /** Whatever the clock says, an unspent final action asked for with the next number is granted exactly
      until the service closes. */
  lemma FinalIsGrantedUntilClosed(m: Manifest, s: Service, at: Moment)
    requires ValidActions(m.actions, m.ceiling) && ServiceSound(m, s) && FINAL_ACTION_ID !in s.granted
    ensures FinalIsGranted(m, s, at) <==> s.phase != Closed
  {
    CeilingLeavesRoom(m, s, FINAL_ACTION_ID);
    assert FINAL_ACTION_ID != JOIN_ACTION_ID;
  }

  ghost predicate JoinCheckPasses(binaries: seq<Binary>, limit: int) {
    forall k :: 0 <= k < |binaries| ==> binaries[k].hash == Same && binaries[k].elapsed <= limit
  }

  lemma {:induction false} JoinFaultsExactly(binaries: seq<Binary>, limit: int)
    ensures JoinFault(binaries, limit).None? <==> JoinCheckPasses(binaries, limit)
    decreases |binaries|
  {
    if binaries != [] {
      JoinFaultsExactly(binaries[1..], limit);
      assert forall k :: 1 <= k < |binaries| ==> binaries[k] == binaries[1..][k - 1];
    }
  }

  /** A listed action asked for with the next number is granted exactly when it has not been granted,
      the instance is open, the deadline has not passed, and a checked join finds every pinned binary
      unchanged and in time. A valid ceiling never stands in the way. */
  lemma ListedActionIsGrantedExactly(m: Manifest, s: Service, action: string, at: Moment)
    requires ValidActions(m.actions, m.ceiling) && ServiceSound(m, s) && action in m.actions
    ensures var ask := Request(m.runId, m.digest, Ask(Some(action), Some(|s.granted| + 1)));
            Decide(m, s, ask, at).1 == Permitted(action, |s.granted| + 1) <==>
              && action !in s.granted && s.phase == Open && !IsLate(at)
              && (action == JOIN_ACTION_ID && at.verifyJoin ==> JoinCheckPasses(at.binaries, at.limit))
  {
    JoinFaultsExactly(at.binaries, at.limit);
    if action !in s.granted {
      CeilingLeavesRoom(m, s, action);
    }
  }

  /** Past the deadline every decision on new work leaves the instance out of its open phase. */
  lemma DeadlineStopsNewWork(m: Manifest, s: Service, action: string, number: int, at: Moment)
    requires ServiceSound(m, s) && IsLate(at)
    ensures var (s', reply) := DecidePermit(m, s, action, number, at);
            s'.phase != Open && (reply.Permitted? ==> action == FINAL_ACTION_ID)
  {
  }

  // ----- workers, connections and restarts -----

  /** One connection: its request, and the reply once the launcher has written one. */
  datatype Connection = Connection(request: Request, reply: Option<Reply>)

  /** A worker's guard: waiting for its first count, ready, waiting for a permit, holding one it has not
      yet dispatched on, or dead for good. */
  datatype Guard =
    | Starting(conn: nat)
    | Ready(nextSeq: int)
    | Asking(conn: nat, action: string, number: int)
    | Holding(action: string, nextSeq: int)
    | Dead

  datatype World = World(service: Service, conns: map<nat, Connection>, guards: map<nat, Guard>, next: nat,
                         dispatched: seq<string>)

  datatype Step =
    | StartWorker(runId: string, digest: string)          // a worker process joins and asks for the count
    | AskPermit(guard: nat, action: string, runId: string, digest: string)
    | Serve(conn: nat, at: Moment)                         // the launcher decides one waiting request
    | Stray(request: Request, at: Moment)                  // a request from anything else
    | Lose(conn: nat)                                      // a request or a reply is lost
    | GiveUp(guard: nat)                                   // a timeout, or the launcher watch firing
    | Receive(guard: nat)
    | Dispatch(guard: nat)
    | CrashWorker(guard: nat)
    | RestartLauncher
    | DrainRun(reason: string)
    | CloseRun(reason: string)

  function Init(): World {
    World(Replay([]), map[], map[], 0, [])
  }

  function Call(w: World, request: Request): World {
    w.(conns := w.conns[w.next := Connection(request, None)], next := w.next + 1)
  }

  /** What a guard makes of the reply on its connection. */
  function Hear(g: Guard, reply: Reply): Guard {
    match g
    case Starting(_) => if reply.Counted? then Ready(reply.count + 1) else Dead
    case Asking(_, action, number) =>
      if reply == Permitted(action, number) then Holding(action, number + 1) else Dead
    case _ => g
  }

  /** How one exchange ends for the guard that made it. */
  datatype Exchange = Lost(text: string) | Malformed | Got(reply: Reply)

  function HearExchange(g: Guard, e: Exchange): Guard {
    if e.Got? then Hear(g, e.reply) else Dead
  }

  /** A guard that holds a permit is ready again once it has dispatched. */
  function Dispatched(g: Guard): Guard {
    if g.Holding? then Ready(g.nextSeq) else g
  }

  /** The error a guard records; an empty one would leave it alive. */
  function Complaint(e: Exchange): string {
    match e
    case Lost(text) => text
    case Malformed => "malformed reply"
    case Got(Denied(reason)) => reason
    case Got(Permitted(_, _)) => "reply does not match the request"
    case Got(_) => "denied"
  }

  /** Every denial the service writes names a reason, so a denied guard is a dead one. */
  lemma DenialsNameAReason(m: Manifest, s: Service, request: Request, at: Moment)
    ensures Decide(m, s, request, at).1.Denied? ==> Decide(m, s, request, at).1.reason != ""
  {
    if request.Request? && request.op.Ask? && request.op.action.Some? {
      JoinFaultsNameAReason(at.binaries, at.limit);
    }
  }

  lemma {:induction false} JoinFaultsNameAReason(binaries: seq<Binary>, limit: int)
    ensures JoinFault(binaries, limit).Some? ==> JoinFault(binaries, limit).value != ""
    decreases |binaries|
  {
    if binaries != [] {
      JoinFaultsNameAReason(binaries[1..], limit);
    }
  }

  class WorkerGuard {
    var dead: string
    var nextSeq: int

    ghost function View(): Guard
      reads this
    {
      if dead != "" then Dead else Ready(nextSeq)
    }

    /** The first count; without a usable one there is no guard. */
    constructor (status: Exchange, ghost conn: nat)
      ensures View() == HearExchange(Starting(conn), status)
    {
      if status.Got? && status.reply.Counted? {
        dead, nextSeq := "", status.reply.count + 1;
      } else {
        dead, nextSeq := "unusable status reply", 0;
      }
    }

    /** One permit. It is granted only by a reply to this very request; any other end with an error text
        kills the guard, and a dead guard asks nothing and stays dead. */
    method Permit(action: string, exchange: Exchange, ghost conn: nat) returns (granted: bool)
      modifies this
      ensures granted <==> old(dead) == "" && exchange == Got(Permitted(action, old(nextSeq)))
      ensures nextSeq == if granted then old(nextSeq) + 1 else old(nextSeq)
      ensures old(dead) != "" ==> dead == old(dead)
      ensures old(dead) == "" && !granted ==> dead == Complaint(exchange)
      ensures old(dead) == "" && Complaint(exchange) != "" ==>
                View() == Dispatched(HearExchange(Asking(conn, action, old(nextSeq)), exchange))
    {
      if dead != "" {
        return false;
      }
      if exchange != Got(Permitted(action, nextSeq)) {
        dead := Complaint(exchange);
        return false;
      }
      nextSeq := nextSeq + 1;
      return true;
    }
  }

  predicate Waiting(g: Guard) {
    g.Starting? || g.Asking?
  }

  /** One step of anything; a step that is not possible changes nothing. */
  function Next(m: Manifest, w: World, step: Step): World {
    match step
    case StartWorker(runId, digest) =>
      Call(w, Request(runId, digest, Status)).(guards := w.guards[w.next := Starting(w.next)])
    case AskPermit(id, action, runId, digest) =>
      if id in w.guards && w.guards[id].Ready? then
        var number := w.guards[id].nextSeq;
        Call(w, Request(runId, digest, Ask(Some(action), Some(number))))
          .(guards := w.guards[id := Asking(w.next, action, number)])
      else w
    case Serve(conn, at) =>
      if conn in w.conns && w.conns[conn].reply.None? then
        var (service, reply) := Decide(m, w.service, w.conns[conn].request, at);
        w.(service := service, conns := w.conns[conn := w.conns[conn].(reply := Some(reply))])
      else w
    case Stray(request, at) => w.(service := Decide(m, w.service, request, at).0)
    case Lose(conn) => w.(conns := w.conns - {conn})
    case GiveUp(id) =>
      if id in w.guards && !w.guards[id].Holding? then w.(guards := w.guards[id := Dead]) else w
    case Receive(id) =>
      if id in w.guards && Waiting(w.guards[id]) && w.guards[id].conn in w.conns
         && w.conns[w.guards[id].conn].reply.Some? then
        var conn := w.guards[id].conn;
        w.(guards := w.guards[id := HearExchange(w.guards[id], Got(w.conns[conn].reply.value))], conns := w.conns - {conn})
      else w
    case Dispatch(id) =>
      if id in w.guards && w.guards[id].Holding? then
        w.(dispatched := w.dispatched + [w.guards[id].action], guards := w.guards[id := Dispatched(w.guards[id])])
      else w
    case CrashWorker(id) => w.(guards := w.guards - {id})
    case RestartLauncher => w.(service := Replay(w.service.ledger))
    case DrainRun(reason) => w.(service := BeginDrain(w.service, reason))
    case CloseRun(reason) => w.(service := EndAll(w.service, reason))
  }

  function Run(m: Manifest, w: World, steps: seq<Step>): World
    decreases |steps|
  {
    if steps == [] then w else Run(m, Next(m, w, steps[0]), steps[1..])
  }

  // Who holds the right to an action: a reply in flight, a guard about to dispatch, or the past.

  predicate OnWire(w: World, conn: nat, action: string) {
    conn in w.conns && w.conns[conn].reply.Some? && w.conns[conn].reply.value.Permitted?
    && w.conns[conn].reply.value.action == action
  }

  predicate InHand(w: World, guard: nat, action: string) {
    guard in w.guards && w.guards[guard].Holding? && w.guards[guard].action == action
  }

  /** Every holder has a grant on the ledger, and no action has two holders. */
  ghost predicate OneHolder(w: World) {
    && (forall c: nat, a: string :: OnWire(w, c, a) ==> a in w.service.granted)
    && (forall g: nat, a: string :: InHand(w, g, a) ==> a in w.service.granted)
    && (forall a <- w.dispatched :: a in w.service.granted)
    && (forall c: nat, d: nat, a: string :: OnWire(w, c, a) && OnWire(w, d, a) ==> c == d)
    && (forall g: nat, h: nat, a: string :: InHand(w, g, a) && InHand(w, h, a) ==> g == h)
    && (forall c: nat, g: nat, a: string :: OnWire(w, c, a) ==> !InHand(w, g, a))
    && (forall c: nat, a: string :: OnWire(w, c, a) ==> a !in w.dispatched)
    && (forall g: nat, a: string :: InHand(w, g, a) ==> a !in w.dispatched)
    && Distinct(w.dispatched)
  }

  ghost predicate Inv(m: Manifest, w: World) {
    && ServiceSound(m, w.service) && OneHolder(w)
    && (forall c <- w.conns :: c < w.next) && (forall g <- w.guards :: g < w.next)
  }

  /** Holders may be dropped and grants added. */
  lemma FewerHolders(w: World, w': World)
    requires OneHolder(w) && w'.dispatched == w.dispatched
    requires forall a <- w.service.granted :: a in w'.service.granted
    requires forall c: nat, a: string :: OnWire(w', c, a) ==> OnWire(w, c, a)
    requires forall g: nat, a: string :: InHand(w', g, a) ==> InHand(w, g, a)
    ensures OneHolder(w')
  {
  }

  lemma ServeKeepsOneHolder(m: Manifest, w: World, conn: nat, at: Moment)
    requires Inv(m, w) && conn in w.conns && w.conns[conn].reply.None?
    ensures OneHolder(Next(m, w, Serve(conn, at)))
  {
    var w' := Next(m, w, Serve(conn, at));
    var (service, reply) := Decide(m, w.service, w.conns[conn].request, at);
    DecideIsSound(m, w.service, w.conns[conn].request, at);
    assert forall g: nat, a: string :: InHand(w', g, a) <==> InHand(w, g, a);
    assert forall c: nat, a: string :: OnWire(w', c, a) ==> OnWire(w, c, a) || (c == conn && reply.Permitted? && reply.action == a);
    if !reply.Permitted? {
      FewerHolders(w, w');
    }
  }

  lemma ReceiveKeepsOneHolder(m: Manifest, w: World, id: nat)
    requires OneHolder(w)
    ensures OneHolder(Next(m, w, Receive(id)))
  {
    var w' := Next(m, w, Receive(id));
    if w' != w {
      var conn := w.guards[id].conn;
      assert forall c: nat, a: string :: OnWire(w', c, a) ==> c != conn && OnWire(w, c, a);
      assert forall g: nat, a: string :: InHand(w', g, a) ==> if g == id then OnWire(w, conn, a) else InHand(w, g, a);
    }
  }

  lemma DispatchKeepsOneHolder(m: Manifest, w: World, id: nat)
    requires OneHolder(w)
    ensures OneHolder(Next(m, w, Dispatch(id)))
  {
    var w' := Next(m, w, Dispatch(id));
    if w' != w {
      var action := w.guards[id].action;
      assert InHand(w, id, action);
      DistinctGrows(w.dispatched, action);
      assert forall c: nat, a: string :: OnWire(w', c, a) <==> OnWire(w, c, a);
      assert forall g: nat, a: string :: InHand(w', g, a) ==> g != id && InHand(w, g, a);
      assert forall a <- w'.dispatched :: a in w.dispatched || a == action;
    }
  }

  /** The service after any step is one that a decision, a phase change or a restart leaves. */
  lemma ServiceStep(m: Manifest, w: World, step: Step)
    requires ServiceSound(m, w.service)
    ensures ServiceSound(m, Next(m, w, step).service)
    ensures w.service.ledger <= Next(m, w, step).service.ledger
    ensures forall a <- w.service.granted :: a in Next(m, w, step).service.granted
    ensures !step.RestartLauncher? ==> StepOf(w.service, Next(m, w, step).service)
  {
    match step
    case Serve(conn, at) =>
      if conn in w.conns {
        DecideIsSound(m, w.service, w.conns[conn].request, at);
      }
    case Stray(request, at) => DecideIsSound(m, w.service, request, at);
    case RestartLauncher => RestartIsSound(m, w.service);
    case DrainRun(reason) => DrainIsSound(m, w.service, reason);
    case CloseRun(reason) => CloseIsSound(m, w.service, reason);
    case _ =>
  }

  lemma AskKeepsOneHolder(m: Manifest, w: World, step: Step)
    requires Inv(m, w) && (step.StartWorker? || step.AskPermit?)
    ensures OneHolder(Next(m, w, step))
  {
    var w' := Next(m, w, step);
    assert w.next !in w.conns && w.next !in w.guards;
    assert forall c: nat, a: string :: OnWire(w', c, a) ==> OnWire(w, c, a);
    assert forall g: nat, a: string :: InHand(w', g, a) ==> InHand(w, g, a);
    FewerHolders(w, w');
  }

  lemma DropKeepsOneHolder(m: Manifest, w: World, step: Step)
    requires Inv(m, w)
    requires step.Stray? || step.Lose? || step.GiveUp? || step.CrashWorker? || step.RestartLauncher? || step.DrainRun? || step.CloseRun?
    ensures OneHolder(Next(m, w, step))
  {
    var w' := Next(m, w, step);
    ServiceStep(m, w, step);
    assert forall c: nat, a: string :: OnWire(w', c, a) ==> OnWire(w, c, a);
    assert forall g: nat, a: string :: InHand(w', g, a) ==> InHand(w, g, a);
    FewerHolders(w, w');
  }

  lemma StepKeepsInv(m: Manifest, w: World, step: Step)
    requires Inv(m, w)
    ensures Inv(m, Next(m, w, step))
  {
    ServiceStep(m, w, step);
    match step
    case StartWorker(_, _) => AskKeepsOneHolder(m, w, step);
    case AskPermit(_, _, _, _) => AskKeepsOneHolder(m, w, step);
    case Serve(conn, at) =>
      if conn in w.conns && w.conns[conn].reply.None? {
        ServeKeepsOneHolder(m, w, conn, at);
      }
    case Receive(id) => ReceiveKeepsOneHolder(m, w, id);
    case Dispatch(id) => DispatchKeepsOneHolder(m, w, id);
    case _ => DropKeepsOneHolder(m, w, step);
  }

  lemma {:induction false} RunKeepsInv(m: Manifest, w: World, steps: seq<Step>)
    requires Inv(m, w)
    ensures Inv(m, Run(m, w, steps)) && w.service.ledger <= Run(m, w, steps).service.ledger
    decreases |steps|
  {
    if steps != [] {
      StepKeepsInv(m, w, steps[0]);
      ServiceStep(m, w, steps[0]);
      RunKeepsInv(m, Next(m, w, steps[0]), steps[1..]);
    }
  }

  lemma InitIsSound(m: Manifest)
    ensures Inv(m, Init())
  {
    RestartKeepsGrantsAndFaults(Blank([]), []);
    assert !HasFault([]);
  }

  lemma {:induction false} GrantedIsOnLedger(m: Manifest, ledger: seq<Event>, action: string)
    requires action in Granted(ledger)
    ensures exists k :: 0 <= k < |ledger| && ledger[k].Grant? && ledger[k].action == action
    decreases |ledger|
  {
    var front, last := ledger[..|ledger| - 1], ledger[|ledger| - 1];
    if !(last.Grant? && last.action == action) {
      GrantedIsOnLedger(m, front, action);
      var k :| 0 <= k < |front| && front[k].Grant? && front[k].action == action;
      assert ledger[k] == front[k];
    } else {
      assert ledger[|ledger| - 1] == last;
    }
  }

  /** Over every interleaving of workers, lost messages, crashes and restarts: no action is dispatched
      twice, every dispatched action has a durable grant, and the ledger's grants are numbered 1..n, of
      distinct allowed actions, with n at most the ceiling. */
  lemma AtMostOnce(m: Manifest, steps: seq<Step>)
    requires m.ceiling >= 0
    ensures var w := Run(m, Init(), steps);
            var grants := Grants(w.service.ledger);
            && Distinct(w.dispatched)
            && (forall a <- w.dispatched ::
                  exists k :: 0 <= k < |w.service.ledger| && w.service.ledger[k].Grant? && w.service.ledger[k].action == a)
            && |grants| <= m.ceiling
            && (forall k :: 0 <= k < |grants| ==> grants[k].Grant? && grants[k].number == k + 1 && Allowed(m, grants[k].action))
            && (forall i, j :: 0 <= i < j < |grants| ==> grants[i].action != grants[j].action)
  {
    InitIsSound(m);
    RunKeepsInv(m, Init(), steps);
    var w := Run(m, Init(), steps);
    GrantsAreNumbered(m, w.service.ledger);
    forall a <- w.dispatched
      ensures exists k :: 0 <= k < |w.service.ledger| && w.service.ledger[k].Grant? && w.service.ledger[k].action == a
    {
      GrantedIsOnLedger(m, w.service.ledger, a);
    }
  }

  lemma {:induction false} OnlyFinalAfterFault(m: Manifest, ledger: seq<Event>, from: nat)
    requires WellKept(m, ledger) && from <= |ledger| && HasFault(ledger[..from])
    ensures OnlyFinal(ledger, from)
    decreases |ledger|
  {
    if from < |ledger| {
      var front, last := ledger[..|ledger| - 1], ledger[|ledger| - 1];
      assert front[..from] == ledger[..from];
      OnlyFinalAfterFault(m, front, from);
      var k :| 0 <= k < |ledger[..from]| && ledger[..from][k].Fault?;
      assert front[k].Fault?;
      forall j | from <= j < |ledger| && ledger[j].Grant?
        ensures ledger[j].action == FINAL_ACTION_ID
      {
        if j < |front| {
          assert front[j] == ledger[j];
        } else {
          assert MayGrant(m, front, last.action, last.number);
        }
      }
    }
  }

  ghost predicate AtMostOneGrant(ledger: seq<Event>, from: nat) {
    forall i, j :: from <= i < j < |ledger| && ledger[i].Grant? ==> !ledger[j].Grant?
  }

  /** A ledger that grants only the final action from some point on grants at most once more. */
  lemma OnlyFinalIsOne(m: Manifest, ledger: seq<Event>, from: nat)
    requires WellKept(m, ledger) && OnlyFinal(ledger, from)
    ensures AtMostOneGrant(ledger, from)
  {
    forall i, j | from <= i < j < |ledger| && ledger[i].Grant?
      ensures !ledger[j].Grant?
    {
      if ledger[j].Grant? {
        GrantedOnce(m, ledger, i, j);
      }
    }
  }

  lemma {:induction false} GrantedOnce(m: Manifest, ledger: seq<Event>, i: nat, j: nat)
    requires WellKept(m, ledger) && i < j < |ledger| && ledger[i].Grant? && ledger[j].Grant?
    ensures ledger[i].action != ledger[j].action
    decreases |ledger|
  {
    var front, last := ledger[..|ledger| - 1], ledger[|ledger| - 1];
    if j < |ledger| - 1 {
      assert front[i] == ledger[i] && front[j] == ledger[j];
      GrantedOnce(m, front, i, j);
    } else {
      assert MayGrant(m, front, last.action, last.number);
      assert front[i] == ledger[i];
      EarlierIsGranted(front, i);
    }
  }

  lemma {:induction false} EarlierIsGranted(ledger: seq<Event>, i: nat)
    requires i < |ledger| && ledger[i].Grant?
    ensures ledger[i].action in Granted(ledger)
    decreases |ledger|
  {
    if i < |ledger| - 1 {
      EarlierIsGranted(ledger[..|ledger| - 1], i);
    }
  }

  /** Once a fault is on the ledger, no action but the final one is ever granted again, and that one at
      most once, whatever workers do and however often the launcher restarts. */
  lemma FaultIsForever(m: Manifest, w: World, steps: seq<Step>)
    requires Inv(m, w) && HasFault(w.service.ledger)
    ensures var after := Run(m, w, steps).service.ledger;
            && w.service.ledger <= after && OnlyFinal(after, |w.service.ledger|)
            && AtMostOneGrant(after, |w.service.ledger|)
  {
    RunKeepsInv(m, w, steps);
    var before, after := w.service.ledger, Run(m, w, steps).service.ledger;
    assert after[..|before|] == before;
    OnlyFinalAfterFault(m, after, |before|);
    OnlyFinalIsOne(m, after, |before|);
  }

  ghost predicate NoRestart(steps: seq<Step>) {
    forall k :: 0 <= k < |steps| ==> !steps[k].RestartLauncher?
  }

  lemma {:induction false} InstanceRun(m: Manifest, w: World, steps: seq<Step>)
    requires Inv(m, w) && NoRestart(steps)
    ensures StepOf(w.service, Run(m, w, steps).service)
    decreases |steps|
  {
    if steps != [] {
      var w1 := Next(m, w, steps[0]);
      StepKeepsInv(m, w, steps[0]);
      ServiceStep(m, w, steps[0]);
      InstanceRun(m, w1, steps[1..]);
      StepOfCompose(w.service, w1.service, Run(m, w, steps).service);
    }
  }

  /** Within one launcher instance: once it is draining, by request, deadline or fault, at most one more
      grant happens and it is the final action's; once it is closed, none does. */
  lemma DrainAndCloseHold(m: Manifest, w: World, steps: seq<Step>)
    requires Inv(m, w) && NoRestart(steps) && w.service.phase != Open
    ensures var before, after := w.service.ledger, Run(m, w, steps).service.ledger;
            && before <= after && OnlyFinal(after, |before|) && AtMostOneGrant(after, |before|)
            && (w.service.phase == Closed ==> NoGrant(after, |before|))
  {
    InstanceRun(m, w, steps);
    RunKeepsInv(m, w, steps);
    var before, after := w.service.ledger, Run(m, w, steps).service.ledger;
    OnlyFinalIsOne(m, after, |before|);
  }

  ghost predicate Late(steps: seq<Step>) {
    forall k :: 0 <= k < |steps| ==>
      (steps[k].Serve? ==> IsLate(steps[k].at)) && (steps[k].Stray? ==> IsLate(steps[k].at))
  }

  lemma LateAsk(m: Manifest, s: Service, action: string, number: int, at: Moment)
    requires IsLate(at)
    ensures OnlyFinal(DecidePermit(m, s, action, number, at).0.ledger, |s.ledger|)
  {
  }

  lemma LateDecision(m: Manifest, s: Service, request: Request, at: Moment)
    requires IsLate(at)
    ensures OnlyFinal(Decide(m, s, request, at).0.ledger, |s.ledger|)
  {
    if request.Request? && request.op.Ask? && request.op.action.Some? && request.op.number.Some? {
      LateAsk(m, s, request.op.action.value, request.op.number.value, at);
    }
  }

  /** Once the deadline for new work has passed, the only grant left is the final action's, even if
      nothing has told the service to drain, and across restarts. */
  lemma {:induction false} DeadlineHolds(m: Manifest, w: World, steps: seq<Step>)
    requires Inv(m, w) && Late(steps)
    ensures var before, after := w.service.ledger, Run(m, w, steps).service.ledger;
            before <= after && OnlyFinal(after, |before|) && AtMostOneGrant(after, |before|)
    decreases |steps|
  {
    var before, after := w.service.ledger, Run(m, w, steps).service.ledger;
    RunKeepsInv(m, w, steps);
    if steps != [] {
      var w1 := Next(m, w, steps[0]);
      StepKeepsInv(m, w, steps[0]);
      LateStep(m, w, steps[0]);
      DeadlineHolds(m, w1, steps[1..]);
      forall k | |before| <= k < |after| && after[k].Grant?
        ensures after[k].action == FINAL_ACTION_ID
      {
        if k < |w1.service.ledger| {
          assert w1.service.ledger[k] == after[k];
        }
      }
    }
    OnlyFinalIsOne(m, after, |before|);
  }

  lemma LateStep(m: Manifest, w: World, step: Step)
    requires Inv(m, w)
    requires (step.Serve? ==> IsLate(step.at)) && (step.Stray? ==> IsLate(step.at))
    ensures w.service.ledger <= Next(m, w, step).service.ledger
    ensures OnlyFinal(Next(m, w, step).service.ledger, |w.service.ledger|)
  {
    ServiceStep(m, w, step);
    match step
    case Serve(conn, at) =>
      if conn in w.conns {
        LateDecision(m, w.service, w.conns[conn].request, at);
      }
    case Stray(request, at) => LateDecision(m, w.service, request, at);
    case RestartLauncher => RestartIsSound(m, w.service);
    case DrainRun(reason) =>
    case CloseRun(reason) =>
    case _ =>
  }

  /** A close or a drain does not outlive its launcher: after a restart the service is open again exactly
      when the ledger shows no fault. */
  lemma RestartReopensUnlessFaulted(m: Manifest, w: World)
    requires Inv(m, w)
    ensures Next(m, w, RestartLauncher).service.phase == Open <==> !HasFault(w.service.ledger)
    ensures Next(m, w, RestartLauncher).service.granted == w.service.granted
  {
    RestartIsSound(m, w.service);
  }

  /** In every reachable world the final action can still be had, until the instance closes. */
  lemma FinalIsAlwaysAvailable(m: Manifest, steps: seq<Step>, at: Moment)
    requires ValidActions(m.actions, m.ceiling)
    requires FINAL_ACTION_ID !in Run(m, Init(), steps).service.granted
    ensures FinalIsGranted(m, Run(m, Init(), steps).service, at) <==> Run(m, Init(), steps).service.phase != Closed
  {
    InitIsSound(m);
    RunKeepsInv(m, Init(), steps);
    FinalIsGrantedUntilClosed(m, Run(m, Init(), steps).service, at);
  }
}
