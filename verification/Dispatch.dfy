/** Room admission under one lock (src/dispatch.rs, 14-54, 121-187, 301-472). */
module Dispatch {
  import opened Wrappers

  const MAX_CONCURRENT_GUEST_INTERVIEWS: nat := 2

  datatype StartPhase = Waiting | Joined | Released

  /** `notify` is the identity of the release signal the start and its slot share. */
  datatype Start = Start(candidate: Option<string>, phase: StartPhase, notify: nat)

  datatype DispatchState = DispatchState(live: map<string, bool>, guestLive: set<string>,
                                         starts: map<string, Start>, closed: bool)

  datatype Slot = Slot(guest: bool, room: string, notify: nat)

  datatype Reservation =
    | Existing
    | New(slot: Slot)
    | Full(limit: nat, guestCap: bool)
    | GuestRoomInUse
    | Finalizing
    | Closed

  // ----- the operations, each one critical section -----

  function ReserveFor(d: DispatchState, max: nat, room: string, guest: bool, candidate: Option<string>, notify: nat)
    : (DispatchState, Reservation)
  {
    if room in d.live then
      (d,
       if room in d.starts && d.starts[room].phase == Released then Finalizing
       else if guest || room in d.guestLive then GuestRoomInUse
       else if d.live[room] then Existing else Finalizing)
    else if d.closed then (d, Closed)
    else if |d.live| >= max then (d, Full(max, false))
    else if guest && |d.guestLive| >= MAX_CONCURRENT_GUEST_INTERVIEWS then
      (d, Full(MAX_CONCURRENT_GUEST_INTERVIEWS, true))
    else
      (d.(live := d.live[room := true],
          guestLive := if guest then d.guestLive + {room} else d.guestLive,
          starts := d.starts[room := Start(candidate, Waiting, notify)]),
       New(Slot(guest, room, notify)))
  }

  function ReleaseStart(d: DispatchState, room: string, candidate: string): (DispatchState, bool) {
    if room !in d.starts then (d, false)
    else
      var start := d.starts[room];
      if start.phase != Waiting || start.candidate != Some(candidate) then (d, false)
      else (d.(starts := d.starts[room := start.(phase := Released)]), true)
  }

  /** Nothing where the source's `expect` would fire. */
  function ClaimJoin(d: DispatchState, room: string): Option<(DispatchState, bool)> {
    if room !in d.starts then None
    else
      var start := d.starts[room];
      if start.phase == Released then Some((d, false))
      else Some((d.(starts := d.starts[room := start.(phase := Joined)]), true))
  }

  function AssessmentFinished(d: DispatchState, room: string): DispatchState {
    if room in d.live then d.(live := d.live[room := false]) else d
  }

  function DropSlot(d: DispatchState, slot: Slot): DispatchState {
    d.(live := d.live - {slot.room}, starts := d.starts - {slot.room},
       guestLive := if slot.guest then d.guestLive - {slot.room} else d.guestLive)
  }

  predicate IsIdle(d: DispatchState) {
    d.live == map[]
  }

  // ----- the dispatcher -----

  class LocalDispatcher {
    const maxConcurrent: nat
    var live: map<string, bool>
    var guestLive: set<string>
    var starts: map<string, Start>
    var closed: bool

    constructor (maxConcurrent: nat)
      ensures this.maxConcurrent == maxConcurrent
      ensures View() == DispatchState(map[], {}, map[], false)
    {
      this.maxConcurrent := maxConcurrent;
      live, guestLive, starts, closed := map[], {}, map[], false;
    }

    ghost function View(): DispatchState
      reads this
    {
      DispatchState(live, guestLive, starts, closed)
    }

    method Idle() returns (idle: bool)
      ensures idle == IsIdle(View())
    {
      idle := live == map[];
    }

    method CloseAdmission()
      modifies this
      ensures View() == old(View()).(closed := true)
    {
      closed := true;
    }

    method Reserve(room: string, guest: bool, candidate: Option<string>, notify: nat) returns (r: Reservation)
      modifies this
      ensures (View(), r) == ReserveFor(old(View()), maxConcurrent, room, guest, candidate, notify)
    {
      if room in live {
        if room in starts && starts[room].phase == Released {
          return Finalizing;
        }
        if guest || room in guestLive {
          return GuestRoomInUse;
        }
        return if live[room] then Existing else Finalizing;
      }
      if closed {
        return Closed;
      }
      if |live| >= maxConcurrent {
        return Full(maxConcurrent, false);
      }
      if guest && |guestLive| >= MAX_CONCURRENT_GUEST_INTERVIEWS {
        return Full(MAX_CONCURRENT_GUEST_INTERVIEWS, true);
      }
      live := live[room := true];
      if guest {
        guestLive := guestLive + {room};
      }
      starts := starts[room := Start(candidate, Waiting, notify)];
      return New(Slot(guest, room, notify));
    }

    method Release(room: string, candidate: string) returns (released: bool)
      modifies this
      ensures (View(), released) == ReleaseStart(old(View()), room, candidate)
    {
      if room !in starts {
        return false;
      }
      var start := starts[room];
      if start.phase != Waiting || start.candidate != Some(candidate) {
        return false;
      }
      starts := starts[room := start.(phase := Released)];
      return true;
    }

    /** The caller's obligation is the one the source's `expect` states. */
    method Join(slot: Slot) returns (joined: bool)
      requires slot.room in starts
      modifies this
      ensures ClaimJoin(old(View()), slot.room) == Some((View(), joined))
    {
      var start := starts[slot.room];
      if start.phase == Released {
        return false;
      }
      starts := starts[slot.room := start.(phase := Joined)];
      return true;
    }

    method Finish(slot: Slot)
      modifies this
      ensures View() == AssessmentFinished(old(View()), slot.room)
    {
      if slot.room in live {
        live := live[slot.room := false];
      }
    }

    method Drop(slot: Slot)
      modifies this
      ensures View() == DropSlot(old(View()), slot)
    {
      live := live - {slot.room};
      starts := starts - {slot.room};
      if slot.guest {
        guestLive := guestLive - {slot.room};
      }
    }
  }

  // ----- every interleaving -----

  /** What is worth remembering: which slot's start joined, was released and by whom, or finished its
      assessment. */
  datatype Event = DidJoin(slot: nat) | DidRelease(slot: nat, who: string) | DidFinish(slot: nat)

  /** The dispatcher, the slots its tasks hold, who began each start, and what has happened. */
  datatype World = World(d: DispatchState, slots: map<nat, Slot>, starters: map<nat, Option<string>>,
                         next: nat, log: seq<Event>)

  datatype Op =
    | OpReserve(room: string, guest: bool, candidate: Option<string>)
    | OpRelease(room: string, who: string)
    | OpJoin(slot: nat)
    | OpFinish(slot: nat)
    | OpDrop(slot: nat)
    | OpClose

  function Init(): World {
    World(DispatchState(map[], {}, map[], false), map[], map[], 0, [])
  }

  /** One critical section; an operation on a slot nobody holds cannot be made. */
  function Step(w: World, max: nat, op: Op): World {
    match op
    case OpReserve(room, guest, candidate) =>
      var (d, r) := ReserveFor(w.d, max, room, guest, candidate, w.next);
      if r.New? then World(d, w.slots[w.next := r.slot], w.starters[w.next := candidate], w.next + 1, w.log)
      else w.(d := d)
    case OpRelease(room, candidate) =>
      var (d, released) := ReleaseStart(w.d, room, candidate);
      if released then w.(d := d, log := w.log + [DidRelease(w.d.starts[room].notify, candidate)]) else w.(d := d)
    case OpJoin(id) =>
      if id !in w.slots then w
      else
        (match ClaimJoin(w.d, w.slots[id].room)
         case None => w
         case Some((d, joined)) => w.(d := d, log := if joined then w.log + [DidJoin(id)] else w.log))
    case OpFinish(id) =>
      if id !in w.slots then w
      else w.(d := AssessmentFinished(w.d, w.slots[id].room), log := w.log + [DidFinish(id)])
    case OpDrop(id) => if id !in w.slots then w else w.(d := DropSlot(w.d, w.slots[id]), slots := w.slots - {id})
    case OpClose => w.(d := w.d.(closed := true))
  }

  function Run(w: World, max: nat, ops: seq<Op>): World
    decreases |ops|
  {
    if ops == [] then w else Run(Step(w, max, ops[0]), max, ops[1..])
  }

  /** Live rooms, starts and slots correspond one to one, guest rooms to guest slots, within both caps. */
  ghost predicate Matched(w: World, max: nat) {
    && w.d.live.Keys == w.d.starts.Keys
    && Paired(w.d.starts, w.slots) && GuestsPaired(w.d.guestLive, w.d.starts, w.slots)
    && |w.d.live| <= max && |w.d.guestLive| <= MAX_CONCURRENT_GUEST_INTERVIEWS
  }

  ghost predicate Paired(starts: map<string, Start>, slots: map<nat, Slot>) {
    && (forall id <- slots :: slots[id].room in starts && starts[slots[id].room].notify == id)
    && (forall room <- starts :: starts[room].notify in slots && slots[starts[room].notify].room == room)
  }

  ghost predicate GuestsPaired(guests: set<string>, starts: map<string, Start>, slots: map<nat, Slot>)
    requires Paired(starts, slots)
  {
    && (forall room <- guests :: room in starts)
    && (forall room <- starts :: room in guests <==> slots[starts[room].notify].guest)
  }

  /** A live room still counts as assessing until its slot's assessment finished. */
  ghost predicate Assessing(w: World) {
    forall room <- w.d.live :: room in w.d.starts && (w.d.live[room] <==> DidFinish(w.d.starts[room].notify) !in w.log)
  }

  /** What the log says about each start, held or gone. */
  ghost predicate Logged(w: World) {
    && (forall id <- w.slots :: id < w.next && id in w.starters)
    && (forall e <- w.log :: e.slot < w.next)
    && (forall e <- w.log :: e.DidRelease? ==> e.slot in w.starters && w.starters[e.slot] == Some(e.who))
    && (forall e <- w.log, f <- w.log :: e.DidJoin? && f.DidRelease? ==> e.slot != f.slot)
    && (forall room <- w.d.starts :: w.d.starts[room].notify < w.next && Phased(w, w.d.starts[room]))
  }

  ghost predicate Phased(w: World, start: Start) {
    && start.notify in w.starters && w.starters[start.notify] == start.candidate
    && (start.phase == Joined ==> DidJoin(start.notify) in w.log)
    && (start.phase == Released ==> start.candidate.Some? && DidRelease(start.notify, start.candidate.value) in w.log)
    && forall e <- w.log :: e.slot == start.notify && !e.DidFinish? ==>
         (e.DidJoin? <==> start.phase == Joined) && (e.DidRelease? <==> start.phase == Released)
  }

  ghost predicate Inv(w: World, max: nat) {
    Matched(w, max) && Logged(w) && Assessing(w)
  }

  lemma PairAdded(starts: map<string, Start>, slots: map<nat, Slot>, guests: set<string>, room: string, start: Start, slot: Slot)
    requires Paired(starts, slots) && GuestsPaired(guests, starts, slots)
    requires room !in starts && start.notify !in slots && slot.room == room
    ensures Paired(starts[room := start], slots[start.notify := slot])
    ensures GuestsPaired(if slot.guest then guests + {room} else guests, starts[room := start], slots[start.notify := slot])
  {
    var starts', slots' := starts[room := start], slots[start.notify := slot];
    forall r <- starts'
      ensures starts'[r].notify in slots' && slots'[starts'[r].notify].room == r
    {
      if r != room {
        assert starts[r].notify in slots;
      }
    }
    forall id <- slots'
      ensures slots'[id].room in starts' && starts'[slots'[id].room].notify == id
    {
      if id != start.notify {
        assert slots[id].room in starts;
      }
    }
    forall r <- starts'
      ensures r in (if slot.guest then guests + {room} else guests) <==> slots'[starts'[r].notify].guest
    {
      if r != room {
        assert starts[r].notify in slots;
      }
    }
  }

  lemma ReserveKeepsCaps(d: DispatchState, max: nat, room: string, guest: bool, candidate: Option<string>, notify: nat)
    requires d.live.Keys == d.starts.Keys && |d.live| <= max && |d.guestLive| <= MAX_CONCURRENT_GUEST_INTERVIEWS
    ensures var d' := ReserveFor(d, max, room, guest, candidate, notify).0;
            d'.live.Keys == d'.starts.Keys && |d'.live| <= max && |d'.guestLive| <= MAX_CONCURRENT_GUEST_INTERVIEWS
  {
    if ReserveFor(d, max, room, guest, candidate, notify).1.New? {
      OneMoreKey(d.live, room, true);
      assert |d.guestLive + {room}| <= |d.guestLive| + 1;
    }
  }

  lemma ReserveKeepsMatched(w: World, max: nat, room: string, guest: bool, candidate: Option<string>)
    requires Matched(w, max) && forall id <- w.slots :: id < w.next
    ensures Matched(Step(w, max, OpReserve(room, guest, candidate)), max)
  {
    ReserveKeepsCaps(w.d, max, room, guest, candidate, w.next);
    if ReserveFor(w.d, max, room, guest, candidate, w.next).1.New? {
      assert w.next !in w.slots;
      assert room !in w.d.live.Keys;
      PairAdded(w.d.starts, w.slots, w.d.guestLive, room, Start(candidate, Waiting, w.next), Slot(guest, room, w.next));
    }
  }

  lemma OneMoreKey(m: map<string, bool>, key: string, value: bool)
    requires key !in m
    ensures |m[key := value]| == |m| + 1 && m[key := value].Keys == m.Keys + {key}
  {
    assert m[key := value].Keys == m.Keys + {key};
  }

  lemma ReserveKeepsLogged(w: World, max: nat, room: string, guest: bool, candidate: Option<string>)
    requires Logged(w)
    ensures Logged(Step(w, max, OpReserve(room, guest, candidate)))
  {
    var w' := Step(w, max, OpReserve(room, guest, candidate));
    assert w'.log == w.log;
    if ReserveFor(w.d, max, room, guest, candidate, w.next).1.New? {
      PhasedWithMoreStarters(w, w', candidate);
      assert Phased(w', w'.d.starts[room]);
    } else {
      PhasesOnly(w, w');
    }
  }

  lemma PhasedWithMoreStarters(w: World, w': World, candidate: Option<string>)
    requires Logged(w) && w'.log == w.log && w'.starters == w.starters[w.next := candidate]
    ensures forall room <- w.d.starts :: w.d.starts[room].notify != w.next ==> Phased(w', w.d.starts[room])
    ensures forall e <- w.log :: e.DidRelease? ==> e.slot in w'.starters && w'.starters[e.slot] == Some(e.who)
  {
    forall room <- w.d.starts
      ensures w.d.starts[room].notify != w.next ==> Phased(w', w.d.starts[room])
    {
      assert Phased(w, w.d.starts[room]);
    }
  }

  lemma ReserveKeepsAssessing(w: World, max: nat, room: string, guest: bool, candidate: Option<string>)
    requires Assessing(w) && forall e <- w.log :: e.slot < w.next
    ensures Assessing(Step(w, max, OpReserve(room, guest, candidate)))
  {
    assert DidFinish(w.next) in w.log ==> DidFinish(w.next).slot < w.next;
  }

  lemma ReserveKeepsInv(w: World, max: nat, room: string, guest: bool, candidate: Option<string>)
    requires Inv(w, max)
    ensures Inv(Step(w, max, OpReserve(room, guest, candidate)), max)
  {
    hide Matched, Assessing, Phased, ReserveFor;
    ReserveKeepsMatched(w, max, room, guest, candidate);
    ReserveKeepsLogged(w, max, room, guest, candidate);
    ReserveKeepsAssessing(w, max, room, guest, candidate);
  }

  /** A start moving on finishes no assessment. */
  lemma StillAssessing(w: World, w': World)
    requires Assessing(w) && w'.d.live == w.d.live && w'.d.starts.Keys == w.d.starts.Keys
    requires forall room <- w.d.starts :: w'.d.starts[room].notify == w.d.starts[room].notify
    requires forall id: nat :: DidFinish(id) in w'.log <==> DidFinish(id) in w.log
    ensures Assessing(w')
  {
    forall room <- w'.d.live
      ensures room in w'.d.starts && (w'.d.live[room] <==> DidFinish(w'.d.starts[room].notify) !in w'.log)
    {
      assert room in w'.d.starts.Keys && room in w.d.live;
    }
  }

  /** One start moving on, with what it did added to the log. */
  lemma PhaseChange(w: World, max: nat, room: string, phase: StartPhase, done: seq<Event>)
    requires Inv(w, max) && room in w.d.starts
    requires phase == Joined ==> w.d.starts[room].phase != Released && done == [DidJoin(w.d.starts[room].notify)]
    requires phase == Released ==> w.d.starts[room].phase == Waiting && w.d.starts[room].candidate.Some?
    requires phase == Released ==> done == [DidRelease(w.d.starts[room].notify, w.d.starts[room].candidate.value)]
    requires phase != Waiting
    ensures Inv(w.(d := w.d.(starts := w.d.starts[room := w.d.starts[room].(phase := phase)]), log := w.log + done), max)
  {
    hide Phased, Paired, GuestsPaired;
    var start := w.d.starts[room];
    var w' := w.(d := w.d.(starts := w.d.starts[room := start.(phase := phase)]), log := w.log + done);
    SamePairs(w.d.starts, w.slots, w.d.guestLive, room, start.(phase := phase));
    PhaseChangeLogged(w, room, start.(phase := phase), done);
    StillAssessing(w, w');
  }

  lemma SamePairs(starts: map<string, Start>, slots: map<nat, Slot>, guests: set<string>, room: string, start: Start)
    requires Paired(starts, slots) && GuestsPaired(guests, starts, slots)
    requires room in starts && start.notify == starts[room].notify
    ensures starts[room := start].Keys == starts.Keys
    ensures Paired(starts[room := start], slots) && GuestsPaired(guests, starts[room := start], slots)
  {
    assert starts[room := start].Keys == starts.Keys;
  }

  lemma PhaseChangeLogged(w: World, room: string, start: Start, done: seq<Event>)
    requires Logged(w) && Paired(w.d.starts, w.slots) && room in w.d.starts && start.phase != Waiting
    requires start.notify == w.d.starts[room].notify && start.candidate == w.d.starts[room].candidate
    requires start.phase == Joined ==> w.d.starts[room].phase != Released && done == [DidJoin(start.notify)]
    requires start.phase == Released ==> w.d.starts[room].phase == Waiting && start.candidate.Some?
    requires start.phase == Released ==> done == [DidRelease(start.notify, start.candidate.value)]
    ensures Logged(w.(d := w.d.(starts := w.d.starts[room := start]), log := w.log + done))
  {
    var w' := w.(d := w.d.(starts := w.d.starts[room := start]), log := w.log + done);
    assert Phased(w, w.d.starts[room]);
    forall r <- w'.d.starts
      ensures w'.d.starts[r].notify < w'.next && Phased(w', w'.d.starts[r])
    {
      assert Phased(w, w.d.starts[r]);
    }
  }

  lemma ReleaseKeepsInv(w: World, max: nat, room: string, candidate: string)
    requires Inv(w, max)
    ensures Inv(Step(w, max, OpRelease(room, candidate)), max)
  {
    if ReleaseStart(w.d, room, candidate).1 {
      PhaseChange(w, max, room, Released, [DidRelease(w.d.starts[room].notify, candidate)]);
    }
  }

  lemma JoinKeepsInv(w: World, max: nat, id: nat)
    requires Inv(w, max)
    ensures Inv(Step(w, max, OpJoin(id)), max)
  {
    if id in w.slots && ClaimJoin(w.d, w.slots[id].room).value.1 {
      PhaseChange(w, max, w.slots[id].room, Joined, [DidJoin(id)]);
    }
  }

  lemma DropKeepsMatched(w: World, max: nat, id: nat)
    requires Matched(w, max) && id in w.slots
    ensures Matched(Step(w, max, OpDrop(id)), max)
  {
    var room := w.slots[id].room;
    OneKeyLess(w.d.live, room);
    PairRemoved(w.d.starts, w.slots, w.d.guestLive, id);
    assert |w.d.guestLive - {room}| <= |w.d.guestLive|;
    assert w.slots[id].guest || w.d.guestLive - {room} == w.d.guestLive;
  }

  lemma OneKeyLess(m: map<string, bool>, key: string)
    ensures (m - {key}).Keys == m.Keys - {key} && |m - {key}| <= |m|
  {
    assert (m - {key}).Keys == m.Keys - {key};
  }

  lemma PairRemoved(starts: map<string, Start>, slots: map<nat, Slot>, guests: set<string>, id: nat)
    requires Paired(starts, slots) && GuestsPaired(guests, starts, slots) && id in slots
    ensures Paired(starts - {slots[id].room}, slots - {id})
    ensures GuestsPaired(guests - {slots[id].room}, starts - {slots[id].room}, slots - {id})
  {
  }

  lemma DropKeepsLogged(w: World, max: nat, id: nat)
    requires Logged(w) && id in w.slots
    ensures Logged(Step(w, max, OpDrop(id)))
  {
    var w' := Step(w, max, OpDrop(id));
    assert w'.log == w.log && w'.starters == w.starters && w'.next == w.next;
    forall r <- w'.d.starts
      ensures w'.d.starts[r].notify < w'.next && Phased(w', w'.d.starts[r])
    {
      assert Phased(w, w.d.starts[r]);
    }
  }

  lemma DropKeepsInv(w: World, max: nat, id: nat)
    requires Inv(w, max)
    ensures Inv(Step(w, max, OpDrop(id)), max)
  {
    if id in w.slots {
      DropKeepsMatched(w, max, id);
      DropKeepsLogged(w, max, id);
    }
  }

  lemma StepKeepsInv(w: World, max: nat, op: Op)
    requires Inv(w, max)
    ensures Inv(Step(w, max, op), max)
  {
    match op
    case OpReserve(room, guest, candidate) => ReserveKeepsInv(w, max, room, guest, candidate);
    case OpRelease(room, candidate) => ReleaseKeepsInv(w, max, room, candidate);
    case OpJoin(id) => JoinKeepsInv(w, max, id);
    case OpFinish(id) => FinishKeepsInv(w, max, id);
    case OpDrop(id) => DropKeepsInv(w, max, id);
    case OpClose => CloseKeepsInv(w, max);
  }

  lemma FinishKeepsMatched(w: World, max: nat, id: nat)
    requires Matched(w, max) && id in w.slots
    ensures Matched(Step(w, max, OpFinish(id)), max)
  {
    var live := Step(w, max, OpFinish(id)).d.live;
    assert live.Keys == w.d.live.Keys;
    assert |live| == |live.Keys| && |w.d.live| == |w.d.live.Keys|;
  }

  lemma FinishKeepsLogged(w: World, max: nat, id: nat)
    requires Logged(w) && id in w.slots
    ensures Logged(Step(w, max, OpFinish(id)))
  {
    var w' := Step(w, max, OpFinish(id));
    forall room <- w'.d.starts
      ensures w'.d.starts[room].notify < w'.next && Phased(w', w'.d.starts[room])
    {
      assert Phased(w, w.d.starts[room]);
    }
  }

  lemma FinishKeepsAssessing(w: World, max: nat, id: nat)
    requires Matched(w, max) && Assessing(w) && id in w.slots
    ensures Assessing(Step(w, max, OpFinish(id)))
  {
    var w' := Step(w, max, OpFinish(id));
    var room := w.slots[id].room;
    assert room in w.d.starts.Keys;
    forall r <- w'.d.live
      ensures r in w'.d.starts && (w'.d.live[r] <==> DidFinish(w'.d.starts[r].notify) !in w'.log)
    {
      assert w.slots[w.d.starts[r].notify].room == r;
    }
  }

  lemma FinishKeepsInv(w: World, max: nat, id: nat)
    requires Inv(w, max)
    ensures Inv(Step(w, max, OpFinish(id)), max)
  {
    if id in w.slots {
      FinishKeepsMatched(w, max, id);
      FinishKeepsLogged(w, max, id);
      FinishKeepsAssessing(w, max, id);
    }
  }

  lemma CloseKeepsInv(w: World, max: nat)
    requires Inv(w, max)
    ensures Inv(Step(w, max, OpClose), max)
  {
    PhasesOnly(w, Step(w, max, OpClose));
  }

  lemma PhasesOnly(w: World, w': World)
    requires w'.d.starts == w.d.starts && w'.log == w.log && w'.starters == w.starters
    requires forall room <- w.d.starts :: Phased(w, w.d.starts[room])
    ensures forall room <- w'.d.starts :: Phased(w', w'.d.starts[room])
  {
    forall room <- w'.d.starts
      ensures Phased(w', w'.d.starts[room])
    {
      assert Phased(w, w.d.starts[room]);
    }
  }

  /** Every interleaving keeps the correspondence, the caps and the log's exclusions: no slot's start
      both joins and is released, and only the candidate who began a start ever releases it. */
  lemma {:induction false} RunKeepsInv(w: World, max: nat, ops: seq<Op>)
    requires Inv(w, max)
    ensures Inv(Run(w, max, ops), max)
    decreases |ops|
  {
    if ops != [] {
      StepKeepsInv(w, max, ops[0]);
      RunKeepsInv(Step(w, max, ops[0]), max, ops[1..]);
    }
  }

  lemma InitKeepsInv(max: nat)
    ensures Inv(Init(), max)
  {
  }

  /** The `expect` in `claim_join` never fires for a slot that is still held. */
  lemma JoinNeverPanics(max: nat, ops: seq<Op>, id: nat)
    requires id in Run(Init(), max, ops).slots
    ensures ClaimJoin(Run(Init(), max, ops).d, Run(Init(), max, ops).slots[id].room).Some?
  {
    InitKeepsInv(max);
    RunKeepsInv(Init(), max, ops);
  }

  /** A join succeeds exactly when the start was not released, and a release exactly when it waits for
      the candidate who asks: of two racing calls the first one wins. */
  lemma RaceHasOneWinner(d: DispatchState, room: string, candidate: string)
    requires room in d.starts && d.starts[room].phase == Waiting && d.starts[room].candidate == Some(candidate)
    ensures ReleaseStart(d, room, candidate).1 && ClaimJoin(ReleaseStart(d, room, candidate).0, room).value.1 == false
    ensures ClaimJoin(d, room).value.1 && ReleaseStart(ClaimJoin(d, room).value.0, room, candidate).1 == false
  {
  }

  /** The ids of the slots that guests hold. */
  function GuestSlots(slots: map<nat, Slot>): set<nat> {
    set id | id in slots && slots[id].guest
  }

  /** Pairing is a bijection: as many starts as slots, and as many guest rooms as guest slots. */
  lemma {:induction false} PairedCount(starts: map<string, Start>, slots: map<nat, Slot>, guests: set<string>)
    requires Paired(starts, slots) && GuestsPaired(guests, starts, slots)
    ensures |starts| == |slots| && |guests| == |GuestSlots(slots)|
    decreases |slots|
  {
    if slots.Keys == {} {
      assert slots == map[] && starts == map[] && guests == {} && GuestSlots(slots) == {};
    } else {
      var id :| id in slots.Keys;
      var room := slots[id].room;
      OneStartLess(starts, room);
      OneSlotLess(slots, id);
      PairRemoved(starts, slots, guests, id);
      PairedCount(starts - {room}, slots - {id}, guests - {room});
      if slots[id].guest {
        assert guests == (guests - {room}) + {room};
      } else {
        assert guests == guests - {room};
      }
    }
  }

  lemma OneStartLess(starts: map<string, Start>, room: string)
    requires room in starts
    ensures |starts - {room}| == |starts| - 1
  {
    assert starts.Keys == (starts - {room}).Keys + {room};
  }

  lemma OneSlotLess(slots: map<nat, Slot>, id: nat)
    requires id in slots
    ensures |slots - {id}| == |slots| - 1
    ensures |GuestSlots(slots - {id})| == |GuestSlots(slots)| - if slots[id].guest then 1 else 0
  {
    assert slots.Keys == (slots - {id}).Keys + {id};
    if slots[id].guest {
      assert GuestSlots(slots) == GuestSlots(slots - {id}) + {id};
    } else {
      assert GuestSlots(slots) == GuestSlots(slots - {id});
    }
  }

  /** What a request for a room is answered with, and what it leaves, by what has happened: a room that a
      slot holds is refused, as finalizing once its start was released, as in use if either side is a
      guest, and otherwise as existing until its assessment has finished; any other room is refused once
      admission has closed, then at the cap on all rooms, then at the cap on guest rooms. */
  lemma ReserveAnswersExactly(w: World, max: nat, room: string, guest: bool, candidate: Option<string>)
    requires Inv(w, max)
    ensures var (d, r) := ReserveFor(w.d, max, room, guest, candidate, w.next);
            && (forall id <- w.slots :: w.slots[id].room == room ==>
                  r == HeldAnswer(w, id, guest) && d == w.d)
            && ((forall id <- w.slots :: w.slots[id].room != room) ==>
                  r == if w.d.closed then Closed
                       else if |w.slots| >= max then Full(max, false)
                       else if guest && |GuestSlots(w.slots)| >= 2 then Full(2, true)
                       else New(Slot(guest, room, w.next)))
            && (!r.New? ==> d == w.d)
            && (r.New? ==> room in d.starts && d.starts[room] == Start(candidate, Waiting, w.next)
                           && d.starts - {room} == w.d.starts && d.closed == w.d.closed)
  {
    hide Logged, Assessing, Phased, GuestSlots;
    if room in w.d.starts {
      HeldIsKnown(w, max, room, guest, candidate);
      assert w.slots[w.d.starts[room].notify].room == room;
    } else {
      assert forall id <- w.slots :: w.slots[id].room in w.d.starts;
      FreeIsAnswered(w, max, room, guest, candidate);
    }
  }

  lemma FreeIsAnswered(w: World, max: nat, room: string, guest: bool, candidate: Option<string>)
    requires Matched(w, max) && room !in w.d.starts
    ensures var (d, r) := ReserveFor(w.d, max, room, guest, candidate, w.next);
            && r == (if w.d.closed then Closed
                     else if |w.slots| >= max then Full(max, false)
                     else if guest && |GuestSlots(w.slots)| >= 2 then Full(2, true)
                     else New(Slot(guest, room, w.next)))
            && (!r.New? ==> d == w.d)
            && (r.New? ==> room in d.starts && d.starts[room] == Start(candidate, Waiting, w.next)
                           && d.starts - {room} == w.d.starts && d.closed == w.d.closed)
  {
    hide GuestSlots;
    PairedCount(w.d.starts, w.slots, w.d.guestLive);
    assert |w.d.live| == |w.d.live.Keys| && |w.d.starts| == |w.d.starts.Keys|;
    assert room in w.d.live.Keys <==> room in w.d.starts.Keys;
    assert w.d.starts[room := Start(candidate, Waiting, w.next)] - {room} == w.d.starts;
  }

  ghost function HeldAnswer(w: World, id: nat, guest: bool): Reservation
    requires id in w.slots
  {
    if exists who: string :: DidRelease(id, who) in w.log then Finalizing
    else if guest || w.slots[id].guest then GuestRoomInUse
    else if DidFinish(id) in w.log then Finalizing
    else Existing
  }

  lemma HeldIsKnown(w: World, max: nat, room: string, guest: bool, candidate: Option<string>)
    requires Inv(w, max) && room in w.d.starts
    ensures w.d.starts[room].notify in w.slots
    ensures ReserveFor(w.d, max, room, guest, candidate, w.next) == (w.d, HeldAnswer(w, w.d.starts[room].notify, guest))
  {
    var start := w.d.starts[room];
    var id := start.notify;
    assert room in w.d.live.Keys;
    assert Phased(w, start);
    assert w.slots[id].room == room;
    if start.phase == Released {
      assert DidRelease(id, start.candidate.value) in w.log;
    }
  }

  /** A room is admitted exactly when no slot holds it, admission is open, and both caps have room for
      one more, counted in outstanding slots. */
  lemma AdmittedExactlyUnderTheCaps(w: World, max: nat, room: string, guest: bool, candidate: Option<string>)
    requires Inv(w, max)
    ensures ReserveFor(w.d, max, room, guest, candidate, w.next).1.New? <==>
              && (forall id <- w.slots :: w.slots[id].room != room)
              && !w.d.closed && |w.slots| < max
              && (guest ==> |GuestSlots(w.slots)| < MAX_CONCURRENT_GUEST_INTERVIEWS)
  {
    hide Inv, ReserveFor;
    ReserveAnswersExactly(w, max, room, guest, candidate);
  }

  /** The race is decided by what already happened: a release succeeds exactly for the candidate who
      began a start that has neither joined nor been released, and a join exactly for a start that has
      not been released. */
  lemma HistoryDecidesTheRace(w: World, max: nat, room: string, who: string, id: nat)
    requires Inv(w, max) && id in w.slots && w.slots[id].room == room
    ensures ReleaseStart(w.d, room, who).1 <==>
              w.starters[id] == Some(who) && forall e <- w.log :: e.slot == id ==> e.DidFinish?
    ensures ClaimJoin(w.d, room).value.1 <==> forall e <- w.log :: e.DidRelease? ==> e.slot != id
  {
    hide Assessing, GuestsPaired;
    var start := w.d.starts[room];
    assert start.notify == id && Phased(w, start);
    if start.phase == Joined {
      assert DidJoin(id) in w.log && DidJoin(id).slot == id;
    } else if start.phase == Released {
      assert DidRelease(id, start.candidate.value) in w.log && DidRelease(id, start.candidate.value).slot == id;
    }
  }

  /** Once closed and idle, whatever is asked, nothing is admitted again. */
  lemma {:induction false} ClosedAndIdleStaysSo(w: World, max: nat, ops: seq<Op>)
    requires Inv(w, max) && w.d.closed && IsIdle(w.d)
    ensures Run(w, max, ops).d.closed && IsIdle(Run(w, max, ops).d) && Run(w, max, ops).slots == map[]
    decreases |ops|
  {
    NoSlots(w, max);
    if ops != [] {
      var w' := Step(w, max, ops[0]);
      StepKeepsInv(w, max, ops[0]);
      StepStaysIdle(w, max, ops[0]);
      ClosedAndIdleStaysSo(w', max, ops[1..]);
    }
  }

  lemma NoSlots(w: World, max: nat)
    requires Inv(w, max) && IsIdle(w.d)
    ensures w.slots == map[] && w.d.starts == map[]
  {
    SlotsHaveStarts(w, max);
    assert w.d.live.Keys == {};
    assert w.d.starts == map[];
    assert w.slots == map[];
  }

  /** Idle means that no slot is outstanding, the task that still writes its report included. */
  lemma IdleIsNoSlots(w: World, max: nat)
    requires Inv(w, max)
    ensures IsIdle(w.d) <==> w.slots == map[]
  {
    if IsIdle(w.d) {
      NoSlots(w, max);
    } else {
      PairedCount(w.d.starts, w.slots, w.d.guestLive);
      assert |w.d.live.Keys| == |w.d.starts.Keys|;
    }
  }

  lemma SlotsHaveStarts(w: World, max: nat)
    requires Inv(w, max)
    ensures forall id <- w.slots :: w.slots[id].room in w.d.starts.Keys
    ensures w.d.starts.Keys == w.d.live.Keys
  {
  }

  lemma StepStaysIdle(w: World, max: nat, op: Op)
    requires w.d.closed && IsIdle(w.d) && w.slots == map[] && w.d.starts == map[]
    ensures Step(w, max, op).d.closed && IsIdle(Step(w, max, op).d)
  {
  }

  /** Closing admits no new room even while others are still live: slots only leave. */
  lemma {:induction false} ClosedOnlyShrinks(w: World, max: nat, ops: seq<Op>)
    requires w.d.closed
    ensures Run(w, max, ops).d.closed && Run(w, max, ops).slots.Keys <= w.slots.Keys
    decreases |ops|
  {
    if ops != [] {
      var w' := Step(w, max, ops[0]);
      assert w'.d.closed && w'.slots.Keys <= w.slots.Keys;
      ClosedOnlyShrinks(w', max, ops[1..]);
    }
  }

  // ----- an interview from admission to drop -----

  lemma RunFour(w: World, max: nat, a: Op, b: Op, c: Op, d: Op)
    ensures Run(w, max, [a, b, c, d]) == Step(Step(Step(Step(w, max, a), max, b), max, c), max, d)
  {
    hide Step;
    var w1 := Step(w, max, a);
    var w2 := Step(w1, max, b);
    var w3 := Step(w2, max, c);
    assert [a, b, c, d][1..] == [b, c, d] && [b, c, d][1..] == [c, d] && [c, d][1..] == [d] && [d][1..] == [];
    assert Run(w3, max, [d]) == Run(Step(w3, max, d), max, []);
    assert Run(w2, max, [c, d]) == Run(w3, max, [d]);
    assert Run(w1, max, [b, c, d]) == Run(w2, max, [c, d]);
  }

  ghost predicate Admits(w: World, max: nat, room: string, guest: bool) {
    && (forall id <- w.slots :: w.slots[id].room != room) && !w.d.closed && |w.slots| < max
    && (guest ==> |GuestSlots(w.slots)| < 2)
  }

  /** What an admission leaves. */
  lemma AdmissionLeaves(w: World, max: nat, room: string, guest: bool, candidate: Option<string>)
    requires Inv(w, max) && Admits(w, max, room, guest)
    ensures room !in w.d.live && room !in w.d.starts && room !in w.d.guestLive && w.next !in w.slots
    ensures Step(w, max, OpReserve(room, guest, candidate)) ==
            World(DispatchState(w.d.live[room := true], if guest then w.d.guestLive + {room} else w.d.guestLive,
                                w.d.starts[room := Start(candidate, Waiting, w.next)], w.d.closed),
                  w.slots[w.next := Slot(guest, room, w.next)], w.starters[w.next := candidate], w.next + 1, w.log)
  {
    hide Phased, Assessing, GuestSlots;
    AdmittedExactlyUnderTheCaps(w, max, room, guest, candidate);
    assert room in w.d.starts <==> room in w.d.live.Keys;
  }

  /** An interview that is admitted, joined, finished and dropped leaves the dispatcher as it found it,
      whatever else is going on in other rooms. */
  lemma InterviewComesAndGoes(max: nat, before: seq<Op>, room: string, guest: bool, candidate: Option<string>)
    requires Admits(Run(Init(), max, before), max, room, guest)
    ensures var w := Run(Init(), max, before);
            var w' := Run(w, max, [OpReserve(room, guest, candidate), OpJoin(w.next), OpFinish(w.next), OpDrop(w.next)]);
            && w'.d == w.d && w'.slots == w.slots && w'.log == w.log + [DidJoin(w.next)] + [DidFinish(w.next)]
            && Admits(w', max, room, guest)
  {
    var w := Run(Init(), max, before);
    var id := w.next;
    InitKeepsInv(max);
    RunKeepsInv(Init(), max, before);
    RunFour(w, max, OpReserve(room, guest, candidate), OpJoin(id), OpFinish(id), OpDrop(id));
    AdmissionLeaves(w, max, room, guest, candidate);
    ComesAndGoes(w, max, room, guest, candidate);
  }

  lemma ComesAndGoes(w: World, max: nat, room: string, guest: bool, candidate: Option<string>)
    requires room !in w.d.live && room !in w.d.starts && room !in w.d.guestLive && w.next !in w.slots
    ensures var slot := Slot(guest, room, w.next);
            var w1 := World(DispatchState(w.d.live[room := true], if guest then w.d.guestLive + {room} else w.d.guestLive,
                                          w.d.starts[room := Start(candidate, Waiting, w.next)], w.d.closed),
                            w.slots[w.next := slot], w.starters[w.next := candidate], w.next + 1, w.log);
            var w' := Step(Step(Step(w1, max, OpJoin(w.next)), max, OpFinish(w.next)), max, OpDrop(w.next));
            w'.d == w.d && w'.slots == w.slots && w'.log == w.log + [DidJoin(w.next)] + [DidFinish(w.next)]
  {
    var start := Start(candidate, Waiting, w.next);
    assert w.d.live[room := true][room := false] - {room} == w.d.live;
    assert w.d.starts[room := start][room := start.(phase := Joined)] - {room} == w.d.starts;
    assert w.d.guestLive + {room} - {room} == w.d.guestLive;
    assert w.slots[w.next := Slot(guest, room, w.next)] - {w.next} == w.slots;
  }

  /** A new dispatcher admits, if it may run anything at all. */
  lemma FirstIsAdmitted(max: nat, room: string, guest: bool)
    requires max > 0
    ensures Admits(Init(), max, room, guest)
  {
    assert GuestSlots(map[]) == {};
  }

  /** Once admission closes, every later request for a free room is answered so, whatever happens in
      between, and no slot is ever added. */
  lemma ClosingIsFinal(w: World, max: nat, ops: seq<Op>, room: string, guest: bool, candidate: Option<string>)
    requires Inv(w, max)
    ensures var w' := Run(Step(w, max, OpClose), max, ops);
            && w'.slots.Keys <= w.slots.Keys
            && ((forall id <- w'.slots :: w'.slots[id].room != room) ==>
                  ReserveFor(w'.d, max, room, guest, candidate, w'.next).1 == Closed)
  {
    hide ReserveFor, Inv;
    var w1 := Step(w, max, OpClose);
    StepKeepsInv(w, max, OpClose);
    RunKeepsInv(w1, max, ops);
    ClosedOnlyShrinks(w1, max, ops);
    ReserveAnswersExactly(Run(w1, max, ops), max, room, guest, candidate);
  }
}
