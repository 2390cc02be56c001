/** The permit service and its append-only ledger
    (scripts/interview-run-budget.py, 44-56, 281-307 and 397-582). */
module Permit {
  import opened Wrappers

  const FINAL_ACTION_ID: string := "end"
  const JOIN_ACTION_ID: string := "candidate_join"

  // ----- the manifest's action rules -----

  datatype Manifest = Manifest(runId: string, digest: string, actions: seq<string>, ceiling: int)

  predicate AlphaNumeric(c: char) {
    'A' <= c <= 'Z' || 'a' <= c <= 'z' || '0' <= c <= '9'
  }

  /** A letter or digit, then at most 63 of those or one of `._-`. */
  predicate PlainId(s: string) {
    && 1 <= |s| <= 64 && AlphaNumeric(s[0])
    && forall k | 1 <= k < |s| :: AlphaNumeric(s[k]) || s[k] == '.' || s[k] == '_' || s[k] == '-'
  }

  ghost predicate Distinct(s: seq<string>) {
    forall i, j :: 0 <= i < j < |s| ==> s[i] != s[j]
  }

  ghost predicate ValidActions(actions: seq<string>, ceiling: int) {
    && actions != [] && Distinct(actions)
    && (forall a <- actions :: PlainId(a) && a != FINAL_ACTION_ID)
    && JOIN_ACTION_ID in actions
    && ceiling == |actions| + 1
  }

  datatype ActionError = NoActions | NotPlain(id: string) | FinalListed | Duplicate(id: string) | NoJoin | WrongCeiling

  /** The action part of `validate_manifest`: no error exactly for a valid list and ceiling. */
  method ValidateActions(actions: seq<string>, ceiling: int) returns (errors: seq<ActionError>)
    ensures errors == [] <==> ValidActions(actions, ceiling)
  {
    if actions == [] {
      return [NoActions];
    }
    errors := [];
    var seen: set<string> := {};
    for k := 0 to |actions|
      invariant seen == set a | a in actions[..k]
      invariant errors == [] <==>
          Distinct(actions[..k]) && forall a <- actions[..k] :: PlainId(a) && a != FINAL_ACTION_ID
    {
      var action := actions[k];
      ghost var before := actions[..k];
      assert actions[..k + 1] == before + [action];
      DistinctGrows(before, action);
      if !PlainId(action) {
        errors := errors + [NotPlain(action)];
      } else if action == FINAL_ACTION_ID {
        errors := errors + [FinalListed];
      } else if action in seen {
        errors := errors + [Duplicate(action)];
      }
      assert forall a :: a in before + [action] <==> a in before || a == action;
      seen := seen + {action};
    }
    assert actions[..|actions|] == actions;
    if JOIN_ACTION_ID !in actions {
      errors := errors + [NoJoin];
    }
    if ceiling != |actions| + 1 {
      errors := errors + [WrongCeiling];
    }
  }

  lemma DistinctGrows(s: seq<string>, x: string)
    ensures Distinct(s + [x]) <==> Distinct(s) && x !in s
  {
    var t := s + [x];
    assert t[|s|] == x;
    assert forall i :: 0 <= i < |s| ==> t[i] == s[i];
    if Distinct(t) {
      forall i, j | 0 <= i < j < |s|
        ensures s[i] != s[j]
      {
        assert t[i] != t[j];
      }
      forall i | 0 <= i < |s|
        ensures s[i] != x
      {
        assert t[i] != t[|s|];
      }
    }
  }

  // ----- the ledger -----

  /** One line of the ledger; `Unread` is one that does not parse or says nothing a replay looks for. */
  datatype Event =
    | Grant(action: string, number: int) | Fault(reason: string) | Drain(reason: string) | Close(reason: string)
    | Unread(text: string)

  datatype Phase = Open | Draining | Closed

  datatype Service = Service(granted: map<string, int>, phase: Phase, phaseReason: Option<string>,
                             fault: Option<string>, denials: seq<string>, ledger: seq<Event>)

  /** What a launcher that starts on a ledger takes from one event: grants and faults, nothing else. */
  function ReplayOne(s: Service, e: Event): Service {
    match e
    case Grant(action, number) => s.(granted := s.granted[action := number])
    case Fault(reason) => s.(fault := Some(reason), phase := Draining, phaseReason := Some(reason))
    case _ => s
  }

  function ReplayFrom(s: Service, ledger: seq<Event>): Service {
    if ledger == [] then s else ReplayOne(ReplayFrom(s, ledger[..|ledger| - 1]), ledger[|ledger| - 1])
  }

  function Blank(ledger: seq<Event>): Service {
    Service(map[], Open, None, None, [], ledger)
  }

  function Replay(ledger: seq<Event>): Service {
    ReplayFrom(Blank(ledger), ledger)
  }

  /** The grants a ledger shows, last writer last. */
  function Granted(ledger: seq<Event>): map<string, int> {
    if ledger == [] then map[]
    else
      var front, last := Granted(ledger[..|ledger| - 1]), ledger[|ledger| - 1];
      if last.Grant? then front[last.action := last.number] else front
  }

  ghost predicate HasFault(ledger: seq<Event>) {
    exists k :: 0 <= k < |ledger| && ledger[k].Fault?
  }

  lemma FaultGrows(ledger: seq<Event>, e: Event)
    ensures HasFault(ledger + [e]) <==> HasFault(ledger) || e.Fault?
  {
    var more := ledger + [e];
    assert more[|ledger|] == e;
    if k :| 0 <= k < |ledger| && ledger[k].Fault? {
      assert more[k].Fault?;
    }
  }

  /** A restart keeps the grants and the fault, and nothing of a drain or a close: the new instance is
      open exactly when no fault is on the ledger. */
  lemma {:induction false} RestartKeepsGrantsAndFaults(s: Service, ledger: seq<Event>)
    requires s.granted == map[] && s.phase == Open && s.fault == None
    ensures var r := ReplayFrom(s, ledger);
            && r.granted == Granted(ledger) && r.ledger == s.ledger && r.denials == s.denials
            && (r.phase == Open <==> !HasFault(ledger)) && r.phase != Closed
            && (r.fault.Some? <==> HasFault(ledger))
    decreases |ledger|
  {
    if ledger != [] {
      var front, last := ledger[..|ledger| - 1], ledger[|ledger| - 1];
      RestartKeepsGrantsAndFaults(s, front);
      FaultGrows(front, last);
      assert ledger == front + [last];
    }
  }

  // ----- decisions -----

  datatype Op = Ping | Status | Ask(action: Option<string>, number: Option<int>)

  /** A request that parses as one, or anything else. */
  datatype Request = Garbled | Request(runId: string, digest: string, op: Op)

  datatype Reply =
    | Pong(phase: Phase)
    | Counted(phase: Phase, count: nat)
    | Permitted(action: string, number: int)
    | Denied(reason: string)

  datatype Hash = Same | Different | Unreadable

  /** One pinned binary as it is hashed: what the hash says, and the time since hashing began. */
  datatype Binary = Binary(role: string, hash: Hash, elapsed: int)

  /** The clock, the deadline and the join check of one decision. */
  datatype Moment = Moment(now: int, deadline: Option<int>, verifyJoin: bool, binaries: seq<Binary>, limit: int)

  /** Why a join is refused: the first binary that fails, or the first that makes the check too slow. */
  function JoinFault(binaries: seq<Binary>, limit: int): Option<string> {
    if binaries == [] then None
    else
      var b := binaries[0];
      if b.hash == Unreadable then Some("binary_missing")
      else if b.hash == Different then Some("binary_changed:" + b.role)
      else if b.elapsed > limit then Some("join_hash_too_slow")
      else JoinFault(binaries[1..], limit)
  }

  function Record(s: Service, e: Event): Service {
    s.(ledger := s.ledger + [e])
  }

  function RaiseFault(s: Service, reason: string): (Service, Reply) {
    var s1 := Record(s.(fault := if s.fault.None? then Some(reason) else s.fault, denials := s.denials + [reason]),
                     Fault(reason));
    (if s1.phase == Open then s1.(phase := Draining, phaseReason := Some(reason)) else s1, Denied(reason))
  }

  function BeginDrain(s: Service, reason: string): Service {
    if s.phase == Open then Record(s.(phase := Draining, phaseReason := Some(reason)), Drain(reason)) else s
  }

  function EndAll(s: Service, reason: string): Service {
    if s.phase != Closed then Record(s.(phase := Closed, phaseReason := Some(reason)), Close(reason)) else s
  }

  function PhaseName(p: Phase): string {
    match p
    case Open => "open"
    case Draining => "draining"
    case Closed => "closed"
  }

  predicate Allowed(m: Manifest, action: string) {
    action == FINAL_ACTION_ID || action in m.actions
  }

  /** A permit request that names an allowed, ungranted action with the next number. */
  function Admit(s: Service, action: string, number: int, at: Moment): (Service, Reply) {
    if s.phase == Closed || (s.phase == Draining && action != FINAL_ACTION_ID) then
      (s.(denials := s.denials + ["not_open:" + PhaseName(s.phase)]), Denied(PhaseName(s.phase)))
    else
      var refusal := if action == JOIN_ACTION_ID && at.verifyJoin then JoinFault(at.binaries, at.limit) else None;
      if refusal.Some? then RaiseFault(s, refusal.value)
      else (Record(s.(granted := s.granted[action := number]), Grant(action, number)), Permitted(action, number))
  }

  /** Why a permit request is out of turn, in the order the checks are made. */
  function PermitFault(m: Manifest, s: Service, action: string, number: int): (reason: Option<string>)
    ensures reason.None? <==> Allowed(m, action) && action !in s.granted && number == |s.granted| + 1 <= m.ceiling
  {
    if !Allowed(m, action) then Some("unknown_action")
    else if action in s.granted then Some("duplicate_action")
    else if number != |s.granted| + 1 || number > m.ceiling then Some("sequence_mismatch")
    else None
  }

  predicate IsLate(at: Moment) {
    at.deadline.Some? && at.now >= at.deadline.value
  }

  /** The deadline drains an instance that is still open. */
  function AtDeadline(s: Service, at: Moment): Service {
    if IsLate(at) then BeginDrain(s, "wall_budget") else s
  }

  /** A permit request whose shape and identity have been accepted. */
  function DecidePermit(m: Manifest, s: Service, action: string, number: int, at: Moment): (Service, Reply) {
    match PermitFault(m, s, action, number)
    case Some(reason) => RaiseFault(s, reason)
    case None => Admit(AtDeadline(s, at), action, number, at)
  }

  function Decide(m: Manifest, s: Service, request: Request, at: Moment): (Service, Reply) {
    if request.Garbled? then RaiseFault(s, "malformed_request")
    else if request.runId != m.runId || request.digest != m.digest then RaiseFault(s, "run_identity_mismatch")
    else
      match request.op
      case Ping => (s, Pong(s.phase))
      case Status => (s, Counted(s.phase, |s.granted|))
      case Ask(action, number) =>
        if action.None? || number.None? then RaiseFault(s, "malformed_request")
        else DecidePermit(m, s, action.value, number.value, at)
  }

  class PermitService {
    const manifest: Manifest
    var granted: map<string, int>
    var phase: Phase
    var phaseReason: Option<string>
    var fault: Option<string>
    var denials: seq<string>
    var ledger: seq<Event>

    ghost function View(): Service
      reads this
    {
      Service(granted, phase, phaseReason, fault, denials, ledger)
    }

    /** A launcher that starts on the ledger it finds. */
    constructor (manifest: Manifest, ledger: seq<Event>)
      ensures this.manifest == manifest && View() == Replay(ledger)
    {
      this.manifest := manifest;
      this.ledger := ledger;
      granted, phase, phaseReason, fault, denials := map[], Open, None, None, [];
      new;
      assert ledger[..0] == [];
      for k := 0 to |ledger|
        invariant this.manifest == manifest
        invariant View() == ReplayFrom(Blank(ledger), ledger[..k])
      {
        assert ledger[..k + 1][..k] == ledger[..k];
        match ledger[k] {
          case Grant(action, number) =>
            granted := granted[action := number];
          case Fault(reason) =>
            fault := Some(reason);
            phase := Draining;
            phaseReason := fault;
          case _ =>
        }
      }
      assert ledger[..|ledger|] == ledger;
    }

    method Append(e: Event)
      modifies this`ledger
      ensures ledger == old(ledger) + [e]
    {
      ledger := ledger + [e];
    }

    method StartDrain(reason: string)
      modifies this
      ensures View() == BeginDrain(old(View()), reason)
    {
      if phase == Open {
        phase := Draining;
        phaseReason := Some(reason);
        Append(Drain(reason));
      }
    }

    method CloseDown(reason: string)
      modifies this
      ensures View() == EndAll(old(View()), reason)
    {
      if phase != Closed {
        phase := Closed;
        phaseReason := Some(reason);
        Append(Close(reason));
      }
    }

    method FaultNow(reason: string) returns (reply: Reply)
      modifies this
      ensures (View(), reply) == RaiseFault(old(View()), reason)
    {
      if fault.None? {
        fault := Some(reason);
      }
      denials := denials + [reason];
      Append(Fault(reason));
      if phase == Open {
        phase := Draining;
        phaseReason := Some(reason);
      }
      reply := Denied(reason);
    }

    /** The hashing loop, one binary at a time. */
    method CheckJoin(binaries: seq<Binary>, limit: int) returns (refusal: Option<string>)
      ensures refusal == JoinFault(binaries, limit)
    {
      var k := 0;
      while k < |binaries|
        invariant 0 <= k <= |binaries|
        invariant JoinFault(binaries[k..], limit) == JoinFault(binaries, limit)
      {
        var b := binaries[k];
        assert binaries[k..][1..] == binaries[k + 1..];
        if b.hash == Unreadable {
          return Some("binary_missing");
        }
        if b.hash == Different {
          return Some("binary_changed:" + b.role);
        }
        if b.elapsed > limit {
          return Some("join_hash_too_slow");
        }
        k := k + 1;
      }
      return None;
    }

    method DecideAsk(action: string, number: int, at: Moment) returns (reply: Reply)
      modifies this
      ensures (View(), reply) == DecidePermit(manifest, old(View()), action, number, at)
    {
      if !Allowed(manifest, action) {
        reply := FaultNow("unknown_action");
        return;
      }
      if action in granted {
        reply := FaultNow("duplicate_action");
        return;
      }
      if number != |granted| + 1 || number > manifest.ceiling {
        reply := FaultNow("sequence_mismatch");
        return;
      }
      if IsLate(at) {
        StartDrain("wall_budget");
      }
      if phase == Closed || (phase == Draining && action != FINAL_ACTION_ID) {
        denials := denials + ["not_open:" + PhaseName(phase)];
        return Denied(PhaseName(phase));
      }
      if action == JOIN_ACTION_ID && at.verifyJoin {
        var refusal := CheckJoin(at.binaries, at.limit);
        if refusal.Some? {
          reply := FaultNow(refusal.value);
          return;
        }
      }
      granted := granted[action := number];
      Append(Grant(action, number));
      reply := Permitted(action, number);
    }

    method DecideRequest(request: Request, at: Moment) returns (reply: Reply)
      modifies this
      ensures (View(), reply) == Decide(manifest, old(View()), request, at)
    {
      if request.Garbled? {
        reply := FaultNow("malformed_request");
        return;
      }
      if request.runId != manifest.runId || request.digest != manifest.digest {
        reply := FaultNow("run_identity_mismatch");
        return;
      }
      match request.op {
        case Ping => reply := Pong(phase);
        case Status => reply := Counted(phase, |granted|);
        case Ask(action, number) =>
          if action.None? || number.None? {
            reply := FaultNow("malformed_request");
          } else {
            reply := DecideAsk(action.value, number.value, at);
          }
      }
    }
  }
}
