/** What a worker gets done when nothing stands in its way
    (scripts/interview-run-budget.py, 504-581 and 696-757). */
module PermitProgress {
  import opened Permit
  import opened PermitProtocol
  import opened Wrappers

  /** Asking how many grants there are changes nothing, and the answer is the number on the ledger. */
  lemma StatusTellsTheCount(m: Manifest, steps: seq<Step>, at: Moment)
    requires m.ceiling >= 0
    ensures var s := PermitProtocol.Run(m, Init(), steps).service;
            Decide(m, s, Request(m.runId, m.digest, Status), at) == (s, Counted(s.phase, |Grants(s.ledger)|))
  {
    InitIsSound(m);
    RunKeepsInv(m, Init(), steps);
    GrantsAreNumbered(m, PermitProtocol.Run(m, Init(), steps).service.ledger);
  }

  lemma {:induction false} RunAppend(m: Manifest, w: World, a: seq<Step>, b: seq<Step>)
    ensures PermitProtocol.Run(m, w, a + b) == PermitProtocol.Run(m, PermitProtocol.Run(m, w, a), b)
    decreases |a|
  {
    if a == [] {
      assert a + b == b;
    } else {
      assert (a + b)[0] == a[0] && (a + b)[1..] == a[1..] + b;
      RunAppend(m, Next(m, w, a[0]), a[1..], b);
    }
  }

  lemma RunNone(m: Manifest, w: World)
    ensures PermitProtocol.Run(m, w, []) == w
  {
  }

  lemma ServeIs(m: Manifest, w: World, conn: nat, at: Moment)
    requires conn in w.conns && w.conns[conn].reply.None?
    ensures var (service, reply) := Decide(m, w.service, w.conns[conn].request, at);
            Next(m, w, Serve(conn, at)) ==
            w.(service := service, conns := w.conns[conn := Connection(w.conns[conn].request, Some(reply))])
  {
  }

  lemma ReceiveIs(m: Manifest, w: World, worker: nat)
    requires worker in w.guards && Waiting(w.guards[worker])
    requires w.guards[worker].conn in w.conns && w.conns[w.guards[worker].conn].reply.Some?
    ensures var conn := w.guards[worker].conn;
            Next(m, w, Receive(worker)) ==
            w.(guards := w.guards[worker := Hear(w.guards[worker], w.conns[conn].reply.value)], conns := w.conns - {conn})
  {
  }

  lemma AskIs(m: Manifest, w: World, worker: nat, action: string, number: int)
    requires worker in w.guards && w.guards[worker] == Ready(number)
    ensures Next(m, w, AskPermit(worker, action, m.runId, m.digest)) ==
            w.(conns := w.conns[w.next := Connection(Request(m.runId, m.digest, Ask(Some(action), Some(number))), None)],
               guards := w.guards[worker := Asking(w.next, action, number)], next := w.next + 1)
  {
  }

  /** A guard that waits on a fresh connection hears the decision on its request. */
  lemma ServedAndHeard(m: Manifest, w: World, worker: nat, request: Request, at: Moment)
    requires worker in w.guards && Waiting(w.guards[worker])
    requires w.guards[worker].conn in w.conns && w.conns[w.guards[worker].conn] == Connection(request, None)
    ensures var g := w.guards[worker];
            var (service, reply) := Decide(m, w.service, request, at);
            Next(m, Next(m, w, Serve(g.conn, at)), Receive(worker)) ==
            w.(service := service, guards := w.guards[worker := Hear(g, reply)], conns := w.conns - {g.conn})
  {
    hide Next, Decide, Hear;
    var g := w.guards[worker];
    var (service, reply) := Decide(m, w.service, request, at);
    ServeIs(m, w, g.conn, at);
    var w1 := Next(m, w, Serve(g.conn, at));
    ReceiveIs(m, w1, worker);
    assert w1.conns - {g.conn} == w.conns - {g.conn};
  }

  lemma FreshIsGone(conns: map<nat, Connection>, id: nat, c: Connection)
    requires id !in conns
    ensures conns[id := c] - {id} == conns
  {
  }

  // ----- joining -----

  /** A worker process joins the run and hears its count. */
  function Joining(m: Manifest, worker: nat, at: Moment): seq<Step> {
    [StartWorker(m.runId, m.digest), Serve(worker, at), Receive(worker)]
  }

  lemma RunThree(m: Manifest, w: World, a: Step, b: Step, c: Step)
    ensures PermitProtocol.Run(m, w, [a, b, c]) == Next(m, Next(m, Next(m, w, a), b), c)
  {
    var w1 := Next(m, w, a);
    var w2 := Next(m, w1, b);
    assert [a, b, c][1..] == [b, c] && [b, c][1..] == [c] && [c][1..] == [];
    assert PermitProtocol.Run(m, w2, [c]) == Next(m, w2, c);
    assert PermitProtocol.Run(m, w1, [b, c]) == PermitProtocol.Run(m, w2, [c]);
  }

  /** The worker that joins is ready to ask for the next number, and nothing else has changed. */
  lemma JoinerIsReady(m: Manifest, w: World, at: Moment)
    requires Inv(m, w)
    ensures PermitProtocol.Run(m, w, Joining(m, w.next, at)) ==
            w.(guards := w.guards[w.next := Ready(|w.service.granted| + 1)], next := w.next + 1)
  {
    hide Next, PermitProtocol.Run;
    var id, status := w.next, Request(m.runId, m.digest, Status);
    var w1 := Next(m, w, StartWorker(m.runId, m.digest));
    RunThree(m, w, StartWorker(m.runId, m.digest), Serve(id, at), Receive(id));
    StartIs(m, w);
    ServedAndHeard(m, w1, id, status, at);
    FreshIsGone(w.conns, id, Connection(status, None));
    assert w1.guards[id := Ready(|w.service.granted| + 1)] == w.guards[id := Ready(|w.service.granted| + 1)];
  }

  lemma StartIs(m: Manifest, w: World)
    ensures Next(m, w, StartWorker(m.runId, m.digest)) ==
            w.(conns := w.conns[w.next := Connection(Request(m.runId, m.digest, Status), None)],
               guards := w.guards[w.next := Starting(w.next)], next := w.next + 1)
  {
  }

  // ----- asking -----

  /** One action, asked for, answered, heard and dispatched. */
  function Doing(m: Manifest, worker: nat, conn: nat, action: string, at: Moment): seq<Step> {
    [AskPermit(worker, action, m.runId, m.digest), Serve(conn, at), Receive(worker), Dispatch(worker)]
  }

  ghost predicate OnTime(at: Moment) {
    at.deadline.Some? ==> at.now < at.deadline.value
  }

  /** When an action can still be started: the final one until the service closes, a listed one while it
      is open and on time, the join only past unchanged binaries, and none twice. */
  ghost predicate MayStart(m: Manifest, s: Service, action: string, at: Moment) {
    && action !in s.granted
    && (action == FINAL_ACTION_ID || action in m.actions)
    && if action == FINAL_ACTION_ID then s.phase != Closed
       else
         && s.phase == Open && OnTime(at)
         && (action == JOIN_ACTION_ID && at.verifyJoin ==> JoinCheckPasses(at.binaries, at.limit))
  }

  /** What a permitted action leaves on the ledger: its grant, after the drain a late end begins. */
  ghost predicate GrantAdded(s: Service, s': Service, action: string) {
    && s'.granted == s.granted[action := |s.granted| + 1]
    && s'.ledger != [] && s'.ledger[|s'.ledger| - 1] == Grant(action, |s.granted| + 1)
    && (action != FINAL_ACTION_ID ==> s'.phase == s.phase && s'.ledger == s.ledger + [Grant(action, |s.granted| + 1)])
  }

  lemma AskIsDecided(m: Manifest, s: Service, action: string, at: Moment)
    requires ValidActions(m.actions, m.ceiling) && ServiceSound(m, s)
    ensures var (s', reply) := Decide(m, s, Request(m.runId, m.digest, Ask(Some(action), Some(|s.granted| + 1))), at);
            && (reply == Permitted(action, |s.granted| + 1) <==> MayStart(m, s, action, at))
            && (MayStart(m, s, action, at) ==> GrantAdded(s, s', action))
  {
    if action == FINAL_ACTION_ID {
      if action !in s.granted {
        FinalIsGrantedUntilClosed(m, s, at);
      }
    } else if action in m.actions {
      ListedActionIsGrantedExactly(m, s, action, at);
    }
  }

  /** Done if it may be started; otherwise nothing is dispatched and the guard is dead. */
  ghost predicate DoneIfAllowed(m: Manifest, w: World, w': World, worker: nat, action: string, at: Moment) {
    && w'.next == w.next + 1 && w'.conns == w.conns
    && if MayStart(m, w.service, action, at) then
         && w'.dispatched == w.dispatched + [action] && GrantAdded(w.service, w'.service, action)
         && w'.guards == w.guards[worker := Ready(|w.service.granted| + 2)]
       else
         w'.dispatched == w.dispatched && w'.guards == w.guards[worker := Dead]
  }

  /** Asked and answered. */
  lemma AskedAndHeard(m: Manifest, w: World, worker: nat, action: string, at: Moment)
    requires Inv(m, w) && worker in w.guards && w.guards[worker] == Ready(|w.service.granted| + 1)
    ensures var number := |w.service.granted| + 1;
            var (service, reply) := Decide(m, w.service, Request(m.runId, m.digest, Ask(Some(action), Some(number))), at);
            var asked := [AskPermit(worker, action, m.runId, m.digest), Serve(w.next, at), Receive(worker)];
            PermitProtocol.Run(m, w, asked) ==
            w.(service := service, next := w.next + 1,
               guards := w.guards[worker := Hear(Asking(w.next, action, number), reply)])
  {
    hide Next, PermitProtocol.Run, Decide;
    var id, number := w.next, |w.service.granted| + 1;
    var ask := Request(m.runId, m.digest, Ask(Some(action), Some(number)));
    var asking := AskPermit(worker, action, m.runId, m.digest);
    var w1 := Next(m, w, asking);
    var reply := Decide(m, w.service, ask, at).1;
    RunThree(m, w, asking, Serve(id, at), Receive(worker));
    AskIs(m, w, worker, action, number);
    ServedAndHeard(m, w1, worker, ask, at);
    FreshIsGone(w.conns, id, Connection(ask, None));
    assert w1.guards[worker := Hear(Asking(id, action, number), reply)] ==
           w.guards[worker := Hear(Asking(id, action, number), reply)];
  }

  lemma HeardIsDispatched(m: Manifest, w: World, worker: nat)
    requires worker in w.guards
    ensures w.guards[worker].Holding? ==>
              Next(m, w, Dispatch(worker)) ==
              w.(dispatched := w.dispatched + [w.guards[worker].action],
                 guards := w.guards[worker := Ready(w.guards[worker].nextSeq)])
    ensures w.guards[worker] == Dead ==> Next(m, w, Dispatch(worker)) == w
  {
  }

  /** A ready worker gets an action done exactly when it may still be started. */
  lemma AskedIsDone(m: Manifest, w: World, worker: nat, action: string, at: Moment)
    requires ValidActions(m.actions, m.ceiling) && Inv(m, w)
    requires worker in w.guards && w.guards[worker] == Ready(|w.service.granted| + 1)
    ensures DoneIfAllowed(m, w, PermitProtocol.Run(m, w, Doing(m, worker, w.next, action, at)), worker, action, at)
  {
    hide PermitProtocol.Run, Next, Decide;
    var asked := [AskPermit(worker, action, m.runId, m.digest), Serve(w.next, at), Receive(worker)];
    assert Doing(m, worker, w.next, action, at) == asked + [Dispatch(worker)];
    AskIsDecided(m, w.service, action, at);
    AskedAndHeard(m, w, worker, action, at);
    RunAppend(m, w, asked, [Dispatch(worker)]);
    var w3 := PermitProtocol.Run(m, w, asked);
    RunOne(m, w3, Dispatch(worker));
    HeardIsDispatched(m, w3, worker);
    assert w3.guards[worker := Dead] == w3.guards[worker := Dead][worker := Dead];
  }

  lemma RunOne(m: Manifest, w: World, step: Step)
    ensures PermitProtocol.Run(m, w, [step]) == Next(m, w, step)
  {
    assert [step][1..] == [];
    assert PermitProtocol.Run(m, Next(m, w, step), []) == Next(m, w, step);
  }

  /** In any reachable world, a new worker of the run that joins and asks, undisturbed, gets the action
      dispatched exactly when it may still be started. */
  lemma NewWorkerGetsItDone(m: Manifest, before: seq<Step>, action: string, joined: Moment, at: Moment)
    requires ValidActions(m.actions, m.ceiling)
    ensures var w := PermitProtocol.Run(m, Init(), before);
            var w' := PermitProtocol.Run(m, w, Joining(m, w.next, joined) + Doing(m, w.next, w.next + 1, action, at));
            && (w'.dispatched == w.dispatched + [action] <==> MayStart(m, w.service, action, at))
            && (w'.dispatched == w.dispatched <==> !MayStart(m, w.service, action, at))
  {
    hide PermitProtocol.Run, Next, Inv;
    InitIsSound(m);
    RunKeepsInv(m, Init(), before);
    var w := PermitProtocol.Run(m, Init(), before);
    JoinerIsReady(m, w, joined);
    RunKeepsInv(m, w, Joining(m, w.next, joined));
    var w1 := PermitProtocol.Run(m, w, Joining(m, w.next, joined));
    RunAppend(m, w, Joining(m, w.next, joined), Doing(m, w.next, w.next + 1, action, at));
    AskedIsDone(m, w1, w.next, action, at);
    assert w1.service == w.service && w1.dispatched == w.dispatched;
    assert |w.dispatched + [action]| == |w.dispatched| + 1;
  }

  // ----- a whole plan -----

  /** One worker does the actions of a plan in turn. */
  function DoingAll(m: Manifest, worker: nat, conn: nat, plan: seq<string>, at: Moment): seq<Step>
    decreases |plan|
  {
    if plan == [] then [] else Doing(m, worker, conn, plan[0], at) + DoingAll(m, worker, conn + 1, plan[1..], at)
  }

  ghost predicate GoodMoment(at: Moment) {
    OnTime(at) && (at.verifyJoin ==> JoinCheckPasses(at.binaries, at.limit))
  }

  ghost predicate OpenPlan(m: Manifest, w: World, plan: seq<string>) {
    && Distinct(plan) && w.service.phase == Open
    && forall k :: 0 <= k < |plan| ==> plan[k] in m.actions && plan[k] !in w.service.granted
  }

  /** The plan is dispatched in its order and the worker is ready for more. */
  ghost predicate PlanDone(w: World, w': World, worker: nat, plan: seq<string>) {
    && w'.dispatched == w.dispatched + plan && w'.service.phase == Open && w'.next == w.next + |plan|
    && |w'.service.granted| == |w.service.granted| + |plan|
    && worker in w'.guards && w'.guards[worker] == Ready(|w'.service.granted| + 1)
    && (forall a <- w'.service.granted :: a in w.service.granted || a in plan)
  }

  lemma FirstOfPlan(m: Manifest, w: World, w1: World, worker: nat, plan: seq<string>, at: Moment)
    requires ValidActions(m.actions, m.ceiling) && GoodMoment(at) && OpenPlan(m, w, plan) && plan != []
    requires DoneIfAllowed(m, w, w1, worker, plan[0], at)
    ensures PlanDone(w, w1, worker, [plan[0]]) && OpenPlan(m, w1, plan[1..])
    ensures worker in w1.guards && w1.guards[worker] == Ready(|w1.service.granted| + 1) && w1.next == w.next + 1
  {
    assert plan[0] in m.actions && plan[0] != FINAL_ACTION_ID;
    assert MayStart(m, w.service, plan[0], at);
    OneMoreGrant(w.service.granted, plan[0], |w.service.granted| + 1);
    forall k | 0 <= k < |plan[1..]|
      ensures plan[1..][k] in m.actions && plan[1..][k] !in w1.service.granted
    {
      assert plan[1..][k] == plan[k + 1] != plan[0];
    }
  }

  lemma RestOfPlan(w: World, w1: World, w': World, worker: nat, plan: seq<string>)
    requires plan != [] && PlanDone(w, w1, worker, [plan[0]]) && PlanDone(w1, w', worker, plan[1..])
    ensures PlanDone(w, w', worker, plan)
  {
    assert plan == [plan[0]] + plan[1..];
    assert w.dispatched + [plan[0]] + plan[1..] == w.dispatched + plan;
  }

  lemma {:induction false} PlanIsDone(m: Manifest, w: World, worker: nat, plan: seq<string>, at: Moment)
    requires ValidActions(m.actions, m.ceiling) && Inv(m, w) && GoodMoment(at) && OpenPlan(m, w, plan)
    requires worker in w.guards && w.guards[worker] == Ready(|w.service.granted| + 1)
    ensures PlanDone(w, PermitProtocol.Run(m, w, DoingAll(m, worker, w.next, plan, at)), worker, plan)
    decreases |plan|
  {
    hide PermitProtocol.Run, Next, Inv, Doing, DoneIfAllowed, PlanDone, GoodMoment, ValidActions;
    if plan == [] {
      RunNone(m, w);
      NothingPlanned(w, worker);
    } else {
      var first := Doing(m, worker, w.next, plan[0], at);
      var w1 := PermitProtocol.Run(m, w, first);
      AskedIsDone(m, w, worker, plan[0], at);
      RunKeepsInv(m, w, first);
      FirstOfPlan(m, w, w1, worker, plan, at);
      PlanIsDone(m, w1, worker, plan[1..], at);
      var rest := DoingAll(m, worker, w.next + 1, plan[1..], at);
      RunAppend(m, w, first, rest);
      RestOfPlan(w, w1, PermitProtocol.Run(m, w1, rest), worker, plan);
    }
  }

  lemma NothingPlanned(w: World, worker: nat)
    requires w.service.phase == Open
    requires worker in w.guards && w.guards[worker] == Ready(|w.service.granted| + 1)
    ensures PlanDone(w, w, worker, [])
  {
    assert w.dispatched + [] == w.dispatched;
  }

  lemma OneMoreGrant(granted: map<string, int>, action: string, number: int)
    requires action !in granted
    ensures |granted[action := number]| == |granted| + 1
  {
    assert granted[action := number].Keys == granted.Keys + {action};
  }

  /** The budget lets a run do everything its manifest lists: one worker, on time and undisturbed, joins,
      does the listed actions in any order, and ends, which spends the ceiling exactly. */
  lemma WholeRunGetsDone(m: Manifest, plan: seq<string>, at: Moment)
    requires ValidActions(m.actions, m.ceiling) && GoodMoment(at)
    requires Distinct(plan) && |plan| == |m.actions| && forall k :: 0 <= k < |plan| ==> plan[k] in m.actions
    ensures var steps := Joining(m, 0, at) + DoingAll(m, 0, 1, plan, at) + Doing(m, 0, 1 + |plan|, FINAL_ACTION_ID, at);
            var w := PermitProtocol.Run(m, Init(), steps);
            w.dispatched == plan + [FINAL_ACTION_ID] && |w.service.granted| == m.ceiling
  {
    hide PermitProtocol.Run, Next, Inv, Joining, Doing, DoingAll, OpenPlan, PlanDone, GoodMoment;
    var joining, all := Joining(m, 0, at), DoingAll(m, 0, 1, plan, at);
    var end := Doing(m, 0, 1 + |plan|, FINAL_ACTION_ID, at);
    var w1 := PermitProtocol.Run(m, Init(), joining);
    var w2 := PermitProtocol.Run(m, w1, all);
    FirstJoins(m, plan, at);
    PlanIsDone(m, w1, 0, plan, at);
    RunKeepsInv(m, w1, all);
    EndOfPlan(m, w1, w2, plan, at);
    RunAppend(m, Init(), joining, all);
    RunAppend(m, Init(), joining + all, end);
  }

  lemma FirstJoins(m: Manifest, plan: seq<string>, at: Moment)
    requires Distinct(plan) && forall k :: 0 <= k < |plan| ==> plan[k] in m.actions
    ensures var w1 := PermitProtocol.Run(m, Init(), Joining(m, 0, at));
            && Inv(m, w1) && OpenPlan(m, w1, plan) && w1.service.granted == map[] && w1.dispatched == []
            && w1.next == 1 && 0 in w1.guards && w1.guards[0] == Ready(1)
  {
    hide PermitProtocol.Run, Next, Inv;
    InitIsSound(m);
    JoinerIsReady(m, Init(), at);
    RunKeepsInv(m, Init(), Joining(m, 0, at));
  }

  lemma EndOfPlan(m: Manifest, w1: World, w2: World, plan: seq<string>, at: Moment)
    requires ValidActions(m.actions, m.ceiling) && Inv(m, w2) && PlanDone(w1, w2, 0, plan)
    requires w1.service.granted == map[] && w1.dispatched == [] && w1.next == 1
    requires |plan| == |m.actions| && forall k :: 0 <= k < |plan| ==> plan[k] in m.actions
    ensures var w' := PermitProtocol.Run(m, w2, Doing(m, 0, 1 + |plan|, FINAL_ACTION_ID, at));
            w'.dispatched == plan + [FINAL_ACTION_ID] && |w'.service.granted| == m.ceiling
  {
    hide PermitProtocol.Run, Next, Inv, Doing;
    forall a <- w2.service.granted
      ensures a != FINAL_ACTION_ID
    {
      assert a in plan;
    }
    assert w2.dispatched == [] + plan == plan;
    assert MayStart(m, w2.service, FINAL_ACTION_ID, at);
    AskedIsDone(m, w2, 0, FINAL_ACTION_ID, at);
    OneMoreGrant(w2.service.granted, FINAL_ACTION_ID, |w2.service.granted| + 1);
  }
}
