/** The bounded event channel beside the usage ledger
    (src/gemini.rs, 170, 382-399, 871-985 and 1714-1846; src/livekit/recovery.rs, 877-929). */
module UsageLedger {
  import opened Wrappers

  const GEMINI_EVENT_QUEUE: nat := 256

  datatype Usage = Usage(tokens: nat, turnCompleteSamples: nat)

  /** `UsageRecorded` carries nothing in the program; here it carries which observation it announces,
      for the statements below only. */
  datatype Event =
    | VoiceActivity | InputTranscript | Audio | Text | OutputTranscript
    | UsageRecorded(announces: nat)
    | Interrupted | TurnComplete | ToolCall | GoAway

  /** The parts of one server frame that decide its events. */
  datatype Frame = Frame(voice: bool, input: bool, parts: seq<Event>, output: bool, tokens: Option<nat>,
                         interrupted: bool, complete: bool, tools: bool, goAway: bool)

  function When(b: bool, e: Event): seq<Event> {
    if b then [e] else []
  }

  function UsageOf(f: Frame): Option<Usage> {
    if f.tokens.Some? then Some(Usage(f.tokens.value, if f.complete then 1 else 0)) else None
  }

  /** The events before the frame's usage, and those after it. */
  function Before(f: Frame): seq<Event> {
    When(f.voice, VoiceActivity) + When(!f.interrupted && f.input, InputTranscript) + f.parts
    + When(f.output, OutputTranscript)
  }

  function After(f: Frame): seq<Event> {
    When(f.interrupted, Interrupted) + When(f.complete, TurnComplete)
    + When(f.interrupted && f.input, InputTranscript) + When(f.tools, ToolCall) + When(f.goAway, GoAway)
  }

  function EventsOf(f: Frame, announces: nat): seq<Event> {
    Before(f) + When(f.tokens.Some?, UsageRecorded(announces)) + After(f)
  }

  /** Model output yields audio and text only. */
  ghost predicate WellFormed(f: Frame) {
    forall k :: 0 <= k < |f.parts| ==> f.parts[k] == Audio || f.parts[k] == Text
  }

  /** The observations announced by a list of events, in order. */
  function Announced(events: seq<Event>): seq<nat> {
    if events == [] then []
    else (if events[0].UsageRecorded? then [events[0].announces] else []) + Announced(events[1..])
  }

  lemma {:induction false} AnnouncedOfSum(a: seq<Event>, b: seq<Event>)
    ensures Announced(a + b) == Announced(a) + Announced(b)
    decreases |a|
  {
    if a == [] {
      assert a + b == b;
    } else {
      var first := if a[0].UsageRecorded? then [a[0].announces] else [];
      AnnouncedOfSum(a[1..], b);
      assert (a + b)[0] == a[0] && (a + b)[1..] == a[1..] + b;
      assert Announced(a + b) == first + Announced(a[1..] + b);
      assert first + (Announced(a[1..]) + Announced(b)) == (first + Announced(a[1..])) + Announced(b);
    }
  }

  lemma {:induction false} NoneAnnounced(events: seq<Event>)
    requires forall k :: 0 <= k < |events| ==> !events[k].UsageRecorded?
    ensures Announced(events) == []
    decreases |events|
  {
    if events != [] {
      NoneAnnounced(events[1..]);
    }
  }

  lemma BeforeIsQuiet(f: Frame)
    requires WellFormed(f)
    ensures Announced(Before(f)) == []
    ensures forall k :: 0 <= k < |Before(f)| ==> Before(f)[k] != TurnComplete && Before(f)[k] != Interrupted
  {
    var head := When(f.voice, VoiceActivity) + When(!f.interrupted && f.input, InputTranscript);
    assert forall k :: 0 <= k < |head| ==> head[k] == VoiceActivity || head[k] == InputTranscript;
    var middle := head + f.parts;
    assert forall k :: 0 <= k < |middle| ==>
                         !middle[k].UsageRecorded? && middle[k] != TurnComplete && middle[k] != Interrupted;
    assert Before(f) == middle + When(f.output, OutputTranscript);
    NoneAnnounced(Before(f));
  }

  lemma AfterIsQuiet(f: Frame)
    ensures Announced(After(f)) == []
  {
    NoneAnnounced(After(f));
  }

  /** A frame announces its usage once if it carries any, and not at all otherwise. */
  lemma FrameAnnouncesOnce(f: Frame, announces: nat)
    requires WellFormed(f)
    ensures Announced(EventsOf(f, announces)) == if f.tokens.Some? then [announces] else []
  {
    var middle := When(f.tokens.Some?, UsageRecorded(announces));
    BeforeIsQuiet(f);
    AfterIsQuiet(f);
    AnnouncedOfSum(Before(f) + middle, After(f));
    AnnouncedOfSum(Before(f), middle);
    if f.tokens.Some? {
      assert middle[1..] == [];
    }
  }

  /** The announcement comes ahead of the frame's own completion and interruption. */
  lemma UsageComesFirst(f: Frame, announces: nat)
    requires WellFormed(f) && f.tokens.Some?
    ensures EventsOf(f, announces)[|Before(f)|] == UsageRecorded(announces)
    ensures forall k :: 0 <= k < |Before(f)| ==>
              EventsOf(f, announces)[k] != TurnComplete && EventsOf(f, announces)[k] != Interrupted
  {
    BeforeIsQuiet(f);
    assert EventsOf(f, announces) == Before(f) + ([UsageRecorded(announces)] + After(f));
  }

  // What a frame's events are, with no reference to how they are put together.

  /** Where each kind of event stands in its frame: words the candidate said in an interrupting frame
      follow the turn they interrupt. */
  function Rank(f: Frame, e: Event): nat {
    match e
    case VoiceActivity => 0
    case InputTranscript => if f.interrupted then 7 else 1
    case Audio => 2
    case Text => 2
    case OutputTranscript => 3
    case UsageRecorded(_) => 4
    case Interrupted => 5
    case TurnComplete => 6
    case ToolCall => 8
    case GoAway => 9
  }

  predicate IsPart(e: Event) {
    e == Audio || e == Text
  }

  /** What the frame carries besides its parts. */
  predicate Carries(f: Frame, announces: nat, e: Event) {
    match e
    case VoiceActivity => f.voice
    case InputTranscript => f.input
    case Audio => false
    case Text => false
    case OutputTranscript => f.output
    case UsageRecorded(n) => f.tokens.Some? && n == announces
    case Interrupted => f.interrupted
    case TurnComplete => f.complete
    case ToolCall => f.tools
    case GoAway => f.goAway
  }

  ghost predicate Ranked(f: Frame, events: seq<Event>) {
    forall i, j :: 0 <= i < j < |events| ==> Rank(f, events[i]) <= Rank(f, events[j])
  }

  function PartsOf(events: seq<Event>): seq<Event> {
    if events == [] then []
    else PartsOf(events[..|events| - 1]) + if IsPart(events[|events| - 1]) then [events[|events| - 1]] else []
  }

  function Times(events: seq<Event>, e: Event): nat {
    if events == [] then 0
    else Times(events[..|events| - 1], e) + if events[|events| - 1] == e then 1 else 0
  }

  lemma OneMore(events: seq<Event>, e: Event, x: Event)
    ensures PartsOf(events + [e]) == PartsOf(events) + if IsPart(e) then [e] else []
    ensures Times(events + [e], x) == Times(events, x) + if e == x then 1 else 0
  {
    assert (events + [e])[..|events|] == events;
  }

  /** The events so far are those the frame carries of rank below `below`, once each and ranked, and its
      parts once their turn has come. */
  ghost predicate Yields(f: Frame, announces: nat, events: seq<Event>, below: nat) {
    && Ranked(f, events) && (forall k :: 0 <= k < |events| ==> Rank(f, events[k]) < below)
    && PartsOf(events) == (if below > 2 then f.parts else [])
    && forall e: Event :: !IsPart(e) ==> Times(events, e) == if Rank(f, e) < below && Carries(f, announces, e) then 1 else 0
  }

  /** What the frame carries of this rank: `e` if `b`, otherwise nothing. */
  ghost predicate RankHolds(f: Frame, announces: nat, rank: nat, b: bool, e: Event) {
    && (b ==> Rank(f, e) == rank && !IsPart(e))
    && forall x: Event :: Rank(f, x) == rank && Carries(f, announces, x) <==> b && x == e
  }

  lemma VoiceRank(f: Frame, announces: nat)
    ensures RankHolds(f, announces, 0, f.voice, VoiceActivity)
  {
  }

  lemma EarlyInputRank(f: Frame, announces: nat)
    ensures RankHolds(f, announces, 1, !f.interrupted && f.input, InputTranscript)
  {
  }

  lemma OutputRank(f: Frame, announces: nat)
    ensures RankHolds(f, announces, 3, f.output, OutputTranscript)
  {
  }

  lemma UsageRank(f: Frame, announces: nat)
    ensures RankHolds(f, announces, 4, f.tokens.Some?, UsageRecorded(announces))
  {
  }

  lemma InterruptionRank(f: Frame, announces: nat)
    ensures RankHolds(f, announces, 5, f.interrupted, Interrupted)
  {
  }

  lemma CompletionRank(f: Frame, announces: nat)
    ensures RankHolds(f, announces, 6, f.complete, TurnComplete)
  {
  }

  lemma LateInputRank(f: Frame, announces: nat)
    ensures RankHolds(f, announces, 7, f.interrupted && f.input, InputTranscript)
  {
  }

  lemma ToolsRank(f: Frame, announces: nat)
    ensures RankHolds(f, announces, 8, f.tools, ToolCall)
  {
  }

  lemma GoAwayRank(f: Frame, announces: nat)
    ensures RankHolds(f, announces, 9, f.goAway, GoAway)
  {
  }

  lemma RanksHold(f: Frame, announces: nat)
    ensures RankHolds(f, announces, 0, f.voice, VoiceActivity)
    ensures RankHolds(f, announces, 1, !f.interrupted && f.input, InputTranscript)
    ensures RankHolds(f, announces, 3, f.output, OutputTranscript)
    ensures RankHolds(f, announces, 4, f.tokens.Some?, UsageRecorded(announces))
    ensures RankHolds(f, announces, 5, f.interrupted, Interrupted)
    ensures RankHolds(f, announces, 6, f.complete, TurnComplete)
    ensures RankHolds(f, announces, 7, f.interrupted && f.input, InputTranscript)
    ensures RankHolds(f, announces, 8, f.tools, ToolCall)
    ensures RankHolds(f, announces, 9, f.goAway, GoAway)
  {
    hide RankHolds;
    VoiceRank(f, announces);
    EarlyInputRank(f, announces);
    OutputRank(f, announces);
    UsageRank(f, announces);
    InterruptionRank(f, announces);
    CompletionRank(f, announces);
    LateInputRank(f, announces);
    ToolsRank(f, announces);
    GoAwayRank(f, announces);
  }

  lemma YieldsNext(f: Frame, announces: nat, events: seq<Event>, below: nat, b: bool, e: Event)
    requires Yields(f, announces, events, below) && below != 2
    requires RankHolds(f, announces, below, b, e)
    ensures Yields(f, announces, events + When(b, e), below + 1)
  {
    if b {
      forall x: Event
        ensures Times(events + [e], x) == Times(events, x) + if e == x then 1 else 0
      {
        OneMore(events, e, x);
      }
      OneMore(events, e, e);
    } else {
      assert events + When(b, e) == events;
    }
  }

  /** One part more. */
  lemma PartAdded(f: Frame, events: seq<Event>, part: Event)
    requires IsPart(part) && Ranked(f, events) && forall k :: 0 <= k < |events| ==> Rank(f, events[k]) < 3
    ensures Ranked(f, events + [part]) && forall k :: 0 <= k < |events + [part]| ==> Rank(f, (events + [part])[k]) < 3
    ensures PartsOf(events + [part]) == PartsOf(events) + [part]
    ensures forall e: Event :: !IsPart(e) ==> Times(events + [part], e) == Times(events, e)
  {
    hide Times, PartsOf;
    forall x: Event | !IsPart(x)
      ensures Times(events + [part], x) == Times(events, x)
    {
      OneMore(events, part, x);
    }
    OneMore(events, part, part);
    PartRanks(f, events, part);
  }

  lemma PartRanks(f: Frame, events: seq<Event>, part: Event)
    requires IsPart(part) && Ranked(f, events) && forall k :: 0 <= k < |events| ==> Rank(f, events[k]) < 3
    ensures Ranked(f, events + [part]) && forall k :: 0 <= k < |events + [part]| ==> Rank(f, (events + [part])[k]) < 3
  {
    assert Rank(f, part) == 2;
    hide Rank;
    var more := events + [part];
    assert forall k :: 0 <= k < |events| ==> more[k] == events[k];
  }

  lemma {:induction false} YieldsParts(f: Frame, announces: nat, events: seq<Event>, n: nat)
    requires WellFormed(f) && n <= |f.parts| && Yields(f, announces, events, 2)
    ensures var more := events + f.parts[..n];
            && Ranked(f, more) && (forall k :: 0 <= k < |more| ==> Rank(f, more[k]) < 3)
            && PartsOf(more) == f.parts[..n] && forall e: Event :: !IsPart(e) ==> Times(more, e) == Times(events, e)
    decreases n
  {
    if n == 0 {
      assert events + f.parts[..0] == events;
    } else {
      hide Yields, Rank, PartsOf, Times;
      YieldsParts(f, announces, events, n - 1);
      PartAdded(f, events + f.parts[..n - 1], f.parts[n - 1]);
      OnePartOn(events, f.parts, n);
    }
  }

  lemma OnePartOn(events: seq<Event>, parts: seq<Event>, n: nat)
    requires 0 < n <= |parts|
    ensures events + parts[..n] == events + parts[..n - 1] + [parts[n - 1]]
    ensures parts[..n] == parts[..n - 1] + [parts[n - 1]]
  {
  }

  lemma BeforeYields(f: Frame, announces: nat)
    requires WellFormed(f)
    ensures Yields(f, announces, Before(f), 4)
  {
    hide Yields, RankHolds, When;
    RanksHold(f, announces);
    NothingYields(f, announces);
    var voice := [] + When(f.voice, VoiceActivity);
    var input := voice + When(!f.interrupted && f.input, InputTranscript);
    YieldsNext(f, announces, [], 0, f.voice, VoiceActivity);
    YieldsNext(f, announces, voice, 1, !f.interrupted && f.input, InputTranscript);
    PartsYield(f, announces, input);
    YieldsNext(f, announces, input + f.parts, 3, f.output, OutputTranscript);
    assert voice == When(f.voice, VoiceActivity);
    assert Before(f) == input + f.parts + When(f.output, OutputTranscript);
  }

  lemma NothingYields(f: Frame, announces: nat)
    ensures Yields(f, announces, [], 0)
  {
  }

  lemma PartsYield(f: Frame, announces: nat, events: seq<Event>)
    requires WellFormed(f) && Yields(f, announces, events, 2)
    ensures Yields(f, announces, events + f.parts, 3)
  {
    YieldsParts(f, announces, events, |f.parts|);
    assert f.parts[..|f.parts|] == f.parts;
  }

  lemma AfterYields(f: Frame, announces: nat, events: seq<Event>)
    requires Yields(f, announces, events, 5)
    ensures Yields(f, announces, events + After(f), 10)
  {
    hide Yields, When, RankHolds;
    RanksHold(f, announces);
    var interrupted := events + When(f.interrupted, Interrupted);
    var complete := interrupted + When(f.complete, TurnComplete);
    var input := complete + When(f.interrupted && f.input, InputTranscript);
    var tools := input + When(f.tools, ToolCall);
    YieldsNext(f, announces, events, 5, f.interrupted, Interrupted);
    YieldsNext(f, announces, interrupted, 6, f.complete, TurnComplete);
    YieldsNext(f, announces, complete, 7, f.interrupted && f.input, InputTranscript);
    YieldsNext(f, announces, input, 8, f.tools, ToolCall);
    YieldsNext(f, announces, tools, 9, f.goAway, GoAway);
    FiveOn(events, When(f.interrupted, Interrupted), When(f.complete, TurnComplete),
           When(f.interrupted && f.input, InputTranscript), When(f.tools, ToolCall), When(f.goAway, GoAway));
  }

  lemma FiveOn(a: seq<Event>, b: seq<Event>, c: seq<Event>, d: seq<Event>, e: seq<Event>, g: seq<Event>)
    ensures a + (b + c + d + e + g) == a + b + c + d + e + g
  {
    RegroupEvents(a, b + c + d + e, g);
    RegroupEvents(a, b + c + d, e);
    RegroupEvents(a, b + c, d);
    RegroupEvents(a, b, c);
  }

  lemma RegroupEvents(a: seq<Event>, b: seq<Event>, c: seq<Event>)
    ensures (a + b) + c == a + (b + c)
  {
  }

  lemma RankedBelow(f: Frame)
    ensures forall e: Event :: Rank(f, e) < 10
  {
  }

  /** A frame yields everything it carries once, its parts in their own order, and all of it ranked. */
  lemma FrameYields(f: Frame, announces: nat)
    requires WellFormed(f)
    ensures Ranked(f, EventsOf(f, announces)) && PartsOf(EventsOf(f, announces)) == f.parts
    ensures forall e: Event :: !IsPart(e) ==>
              Times(EventsOf(f, announces), e) == if Carries(f, announces, e) then 1 else 0
  {
    hide Before, After, When, Times, PartsOf, Carries, Rank, RankHolds;
    var usage := Before(f) + When(f.tokens.Some?, UsageRecorded(announces));
    RanksHold(f, announces);
    RankedBelow(f);
    BeforeYields(f, announces);
    YieldsNext(f, announces, Before(f), 4, f.tokens.Some?, UsageRecorded(announces));
    AfterYields(f, announces, usage);
  }

  // ----- the reader and the consumer -----

  /** One announcement the room loop handled: which observation it announces, and the one it took. */
  datatype Pairing = Pairing(announces: nat, took: Option<Usage>)

  /** The reader's unsent events, the channel, the ledger, and what has been recorded, taken, drained and
      handled so far. A retired session is one the room loop has let go; `discarded` counts the
      announcements read from it and passed over; `read` is every event read, handled or not. */
  datatype State = State(reading: bool, retired: bool, pending: seq<Event>, queue: seq<Event>, ledger: seq<Usage>,
                         recorded: seq<Usage>, taken: seq<Usage>, drained: seq<Usage>,
                         handled: seq<Pairing>, discarded: nat, read: seq<Event>)

  function Init(): State {
    State(true, false, [], [], [], [], [], [], [], 0, [])
  }

  datatype Op =
    | ReadFrame(f: Frame)
    | Send
    | EndReader
    | Handle
    | Retire
    | Discard
    | Drain

  /** The reader records a frame's usage before it sends any of the frame's events. */
  function Read(s: State, f: Frame): State {
    if !s.reading || s.pending != [] then s
    else
      var usage := UsageOf(f);
      s.(pending := EventsOf(f, |s.recorded|),
         ledger := if usage.Some? then s.ledger + [usage.value] else s.ledger,
         recorded := if usage.Some? then s.recorded + [usage.value] else s.recorded)
  }

  /** A full channel parks the reader: nothing moves until the consumer reads. */
  function SendOne(s: State): State {
    if !s.reading || s.pending == [] || |s.queue| >= GEMINI_EVENT_QUEUE then s
    else s.(pending := s.pending[1..], queue := s.queue + [s.pending[0]])
  }

  function TakeUsage(ledger: seq<Usage>): (seq<Usage>, Option<Usage>) {
    if ledger == [] then (ledger, None) else (ledger[1..], Some(ledger[0]))
  }

  /** The room loop reads a session until it retires it: one event, and the front of the ledger if it
      announces usage. */
  function HandleOne(s: State): State {
    if s.retired || s.queue == [] then s
    else if !s.queue[0].UsageRecorded? then s.(queue := s.queue[1..], read := s.read + [s.queue[0]])
    else
      var (ledger, usage) := TakeUsage(s.ledger);
      s.(queue := s.queue[1..], read := s.read + [s.queue[0]],
         handled := s.handled + [Pairing(s.queue[0].announces, usage)], ledger := ledger,
         taken := if usage.Some? then s.taken + [usage.value] else s.taken)
  }

  /** The recovery loop reads only a retired session, for its last words, and leaves the ledger alone. */
  function DiscardOne(s: State): State {
    if !s.retired || s.queue == [] then s
    else
      s.(queue := s.queue[1..], read := s.read + [s.queue[0]],
         discarded := s.discarded + if s.queue[0].UsageRecorded? then 1 else 0)
  }

  /** Every observation not yet taken, for a session being let go; the reader may still record more. */
  function DrainAll(s: State): State {
    s.(retired := true, drained := s.drained + s.ledger, ledger := [])
  }

  function Step(s: State, op: Op): State {
    match op
    case ReadFrame(f) => Read(s, f)
    case Send => SendOne(s)
    case EndReader => s.(reading := false, pending := [])
    case Handle => HandleOne(s)
    case Retire => s.(retired := true)
    case Discard => DiscardOne(s)
    case Drain => DrainAll(s)
  }

  function Run(s: State, ops: seq<Op>): State
    decreases |ops|
  {
    if ops == [] then s else Run(Step(s, ops[0]), ops[1..])
  }

  ghost predicate WellFormedOps(ops: seq<Op>) {
    forall k :: 0 <= k < |ops| && ops[k].ReadFrame? ==> WellFormed(ops[k].f)
  }

  /** How many announcements have been read. */
  function Announcements(s: State): nat {
    |s.handled| + s.discarded
  }

  /** The announcements still to be read are consecutive, up to everything recorded while the reader
      runs. */
  ghost predicate InOrder(s: State) {
    var ahead := Announced(s.queue + s.pending);
    && |s.queue| <= GEMINI_EVENT_QUEUE
    && (forall k :: 0 <= k < |ahead| ==> ahead[k] == Announcements(s) + k)
    && Announcements(s) + |ahead| <= |s.recorded|
    && (s.reading ==> Announcements(s) + |ahead| == |s.recorded|)
  }

  /** What was taken, drained and is left are the recorded observations in order, and each handled
      announcement took its own. */
  ghost predicate Balanced(s: State) {
    && s.taken + s.drained + s.ledger == s.recorded
    && |s.taken| == |s.handled|
    && (!s.retired ==> s.discarded == 0 && s.drained == [])
    && EachTookItsOwn(s.handled, s.recorded)
  }

  ghost predicate Inv(s: State) {
    InOrder(s) && Balanced(s)
  }

  /** The k-th handled announcement announces the k-th recorded observation and took it. */
  ghost predicate EachTookItsOwn(handled: seq<Pairing>, recorded: seq<Usage>) {
    |handled| <= |recorded| && forall k :: 0 <= k < |handled| ==> handled[k] == Pairing(k, Some(recorded[k]))
  }

  lemma ReadKeepsOrder(s: State, f: Frame)
    requires InOrder(s) && WellFormed(f)
    ensures InOrder(Read(s, f))
  {
    if s.reading && s.pending == [] {
      FrameAnnouncesOnce(f, |s.recorded|);
      AnnouncedOfSum(s.queue, EventsOf(f, |s.recorded|));
      assert s.queue + s.pending == s.queue;
      OneMoreAnnounced(Announced(s.queue), Announcements(s), |s.recorded|);
      assert Announced(s.queue) + [] == Announced(s.queue);
    }
  }

  lemma ReadKeepsBalance(s: State, f: Frame)
    requires Balanced(s)
    ensures Balanced(Read(s, f))
  {
    var usage := UsageOf(f);
    if usage.Some? {
      assert s.taken + s.drained + (s.ledger + [usage.value]) == (s.taken + s.drained + s.ledger) + [usage.value];
    }
  }

  lemma OneMoreAnnounced(ahead: seq<nat>, handled: nat, next: nat)
    requires forall k :: 0 <= k < |ahead| ==> ahead[k] == handled + k
    requires next == handled + |ahead|
    ensures forall k :: 0 <= k < |ahead| + 1 ==> (ahead + [next])[k] == handled + k
  {
  }

  lemma SendKeepsInv(s: State)
    requires Inv(s)
    ensures Inv(SendOne(s))
  {
    if SendOne(s) != s {
      assert (s.queue + [s.pending[0]]) + s.pending[1..] == s.queue + s.pending;
    }
  }

  lemma EndKeepsInv(s: State)
    requires Inv(s)
    ensures Inv(Step(s, EndReader))
  {
    AnnouncedOfSum(s.queue, s.pending);
    var ahead, kept := Announced(s.queue + s.pending), Announced(s.queue);
    assert s.queue + [] == s.queue;
    assert forall k :: 0 <= k < |kept| ==> kept[k] == ahead[k];
  }

  lemma PopKeepsAnnounced(s: State)
    requires s.queue != []
    ensures Announced(s.queue + s.pending)
            == (if s.queue[0].UsageRecorded? then [s.queue[0].announces] else []) + Announced(s.queue[1..] + s.pending)
  {
    assert (s.queue + s.pending)[1..] == s.queue[1..] + s.pending;
  }

  /** In a session still live the next announcement announces the front of the ledger, which is never
      empty. */
  lemma NextAnnouncesTheFront(s: State)
    requires Inv(s) && !s.retired && s.queue != [] && s.queue[0].UsageRecorded?
    ensures s.ledger != [] && s.queue[0].announces == |s.handled| < |s.recorded|
    ensures TakeUsage(s.ledger).1 == Some(s.recorded[|s.handled|])
  {
    PopKeepsAnnounced(s);
    var ahead := Announced(s.queue + s.pending);
    assert ahead[0] == s.queue[0].announces;
    assert s.recorded[|s.taken|] == s.ledger[0];
  }

  /** Reading one event moves the announcements ahead on by one, if it is one. */
  lemma PopKeepsOrder(s: State)
    requires Inv(s) && s.queue != []
    ensures var ahead, rest := Announced(s.queue + s.pending), Announced(s.queue[1..] + s.pending);
            if s.queue[0].UsageRecorded?
            then |ahead| == |rest| + 1 && forall k :: 0 <= k < |rest| ==> rest[k] == Announcements(s) + 1 + k
            else rest == ahead
  {
    PopKeepsAnnounced(s);
    var ahead, rest := Announced(s.queue + s.pending), Announced(s.queue[1..] + s.pending);
    if s.queue[0].UsageRecorded? {
      assert forall k :: 0 <= k < |rest| ==> rest[k] == ahead[k + 1];
    }
  }

  lemma HandleKeepsInv(s: State)
    requires Inv(s)
    ensures Inv(HandleOne(s))
  {
    if !s.retired && s.queue != [] {
      PopKeepsOrder(s);
      if s.queue[0].UsageRecorded? {
        NextAnnouncesTheFront(s);
        assert (s.taken + [s.ledger[0]]) + [] + s.ledger[1..] == s.taken + [] + s.ledger;
      }
    }
  }

  lemma DrainKeepsInv(s: State)
    requires Inv(s)
    ensures Inv(DrainAll(s))
  {
    assert s.taken + (s.drained + s.ledger) + [] == s.taken + s.drained + s.ledger;
  }

  lemma DiscardKeepsInv(s: State)
    requires Inv(s)
    ensures Inv(DiscardOne(s))
  {
    if s.queue != [] {
      PopKeepsOrder(s);
    }
  }

  lemma StepKeepsInv(s: State, op: Op)
    requires Inv(s) && (op.ReadFrame? ==> WellFormed(op.f))
    ensures Inv(Step(s, op))
  {
    match op
    case ReadFrame(f) =>
      ReadKeepsOrder(s, f);
      ReadKeepsBalance(s, f);
    case Send => SendKeepsInv(s);
    case EndReader => EndKeepsInv(s);
    case Handle => HandleKeepsInv(s);
    case Retire =>
    case Discard => DiscardKeepsInv(s);
    case Drain => DrainKeepsInv(s);
  }

  lemma {:induction false} RunKeepsInv(s: State, ops: seq<Op>)
    requires Inv(s) && WellFormedOps(ops)
    ensures Inv(Run(s, ops))
    decreases |ops|
  {
    if ops != [] {
      StepKeepsInv(s, ops[0]);
      RunKeepsInv(Step(s, ops[0]), ops[1..]);
    }
  }

  /** The frame an operation reads: none if the reader has ended or has events left to send. */
  function FrameRead(s: State, op: Op): seq<Frame> {
    if op.ReadFrame? && s.reading && s.pending == [] then [op.f] else []
  }

  /** The frames a run reads, in order. */
  function FramesRead(s: State, ops: seq<Op>): seq<Frame>
    decreases |ops|
  {
    if ops == [] then [] else FrameRead(s, ops[0]) + FramesRead(Step(s, ops[0]), ops[1..])
  }

  /** The usage of a list of frames, each completion counted with its frame. */
  function UsageOfAll(frames: seq<Frame>): seq<Usage> {
    if frames == [] then []
    else (match UsageOf(frames[0]) case Some(u) => [u] case None => []) + UsageOfAll(frames[1..])
  }

  /** The frames that carry usage. */
  function Carrying(frames: seq<Frame>): (carrying: seq<Frame>)
    ensures forall k :: 0 <= k < |carrying| ==> carrying[k].tokens.Some?
  {
    if frames == [] then []
    else (if frames[0].tokens.Some? then [frames[0]] else []) + Carrying(frames[1..])
  }

  /** What the program records of a frame that carries usage: the tokens, and whether the turn completed
      in that very frame. */
  ghost predicate IsUsageOf(u: Usage, f: Frame) {
    f.tokens == Some(u.tokens) && u.turnCompleteSamples == if f.complete then 1 else 0
  }

  lemma {:induction false} UsageIsCarried(frames: seq<Frame>)
    ensures |UsageOfAll(frames)| == |Carrying(frames)|
    ensures forall k :: 0 <= k < |Carrying(frames)| ==> IsUsageOf(UsageOfAll(frames)[k], Carrying(frames)[k])
    decreases |frames|
  {
    if frames != [] {
      UsageIsCarried(frames[1..]);
    }
  }

  lemma UsageOfFirst(frames: seq<Frame>, rest: seq<Frame>)
    requires |frames| <= 1
    ensures UsageOfAll(frames + rest) == UsageOfAll(frames) + UsageOfAll(rest)
  {
    if frames == [] {
      assert frames + rest == rest;
    } else {
      assert (frames + rest)[1..] == rest && frames[1..] == [];
    }
  }

  lemma StepRecords(s: State, op: Op)
    ensures Step(s, op).recorded == s.recorded + UsageOfAll(FrameRead(s, op))
  {
    assert s.recorded + [] == s.recorded;
    match op
    case ReadFrame(f) =>
      assert [f][1..] == [];
    case _ =>
  }

  /** A run records exactly the usage of the frames it reads, in order. */
  lemma {:induction false} RecordedIsTheFrames(s: State, ops: seq<Op>)
    ensures Run(s, ops).recorded == s.recorded + UsageOfAll(FramesRead(s, ops))
    decreases |ops|
  {
    if ops == [] {
      assert s.recorded + [] == s.recorded;
    } else {
      var s1 := Step(s, ops[0]);
      var first, rest := FrameRead(s, ops[0]), FramesRead(s1, ops[1..]);
      StepRecords(s, ops[0]);
      RecordedIsTheFrames(s1, ops[1..]);
      UsageOfFirst(first, rest);
      Regroup(s.recorded, UsageOfAll(first), UsageOfAll(rest));
    }
  }

  lemma Regroup(a: seq<Usage>, b: seq<Usage>, c: seq<Usage>)
    ensures (a + b) + c == a + (b + c)
  {
  }

  /** Whatever the interleaving, wherever the reader was aborted and whenever the session was retired: the
      k-th announcement handled is of the k-th frame read that carries usage, and took that frame's usage. */
  lemma HandledUsageIsPaired(ops: seq<Op>, k: nat)
    requires WellFormedOps(ops) && k < |Run(Init(), ops).handled|
    ensures var carrying, pairing := Carrying(FramesRead(Init(), ops)), Run(Init(), ops).handled[k];
            && k < |carrying| && pairing.announces == k
            && pairing.took.Some? && IsUsageOf(pairing.took.value, carrying[k])
  {
    UsageIsCarried(FramesRead(Init(), ops));
    RunKeepsInv(Init(), ops);
    RecordedIsTheFrames(Init(), ops);
    assert [] + UsageOfAll(FramesRead(Init(), ops)) == UsageOfAll(FramesRead(Init(), ops));
  }

  /** What the room took, what the drains returned and what is left are the usage of every frame read, once
      each and in order, however many announcements a retired session had left. */
  lemma NothingIsLostOrRepeated(ops: seq<Op>)
    requires WellFormedOps(ops)
    ensures var s := Run(Init(), ops);
            && s.taken + s.drained + s.ledger == UsageOfAll(FramesRead(Init(), ops))
            && |s.taken| == |s.handled| && (!s.retired ==> s.drained == [])
            && |s.queue| <= GEMINI_EVENT_QUEUE
  {
    RunKeepsInv(Init(), ops);
    RecordedIsTheFrames(Init(), ops);
    assert [] + UsageOfAll(FramesRead(Init(), ops)) == UsageOfAll(FramesRead(Init(), ops));
  }

  /** The events of a list of frames, announcements numbered from `n`. */
  function EventsOfAll(frames: seq<Frame>, n: nat): seq<Event>
    decreases |frames|
  {
    if frames == [] then []
    else EventsOf(frames[0], n) + EventsOfAll(frames[1..], n + if frames[0].tokens.Some? then 1 else 0)
  }

  /** What has been read and what waits, in order: everything sent or still to be sent, and all of it
      while the reader runs. */
  function Stream(s: State): seq<Event> {
    s.read + s.queue + s.pending
  }

  lemma StepStreams(s: State, op: Op)
    requires op != EndReader
    ensures Stream(Step(s, op)) == Stream(s) + EventsOfAll(FrameRead(s, op), |s.recorded|)
  {
    match op
    case ReadFrame(f) =>
      if s.reading && s.pending == [] {
        assert [f][1..] == [];
        assert EventsOf(f, |s.recorded|) + [] == EventsOf(f, |s.recorded|);
      }
    case Send =>
      if SendOne(s) != s {
        assert s.read + (s.queue + [s.pending[0]]) + s.pending[1..] == s.read + s.queue + s.pending;
      }
    case Handle =>
      if !s.retired && s.queue != [] {
        PopStreams(s);
      }
    case Discard =>
      if s.retired && s.queue != [] {
        PopStreams(s);
      }
    case _ =>
  }

  lemma PopStreams(s: State)
    requires s.queue != []
    ensures s.read + [s.queue[0]] + s.queue[1..] + s.pending == Stream(s)
  {
  }

  lemma EventsOfFirst(first: seq<Frame>, rest: seq<Frame>, n: nat, m: nat)
    requires |first| <= 1 && m == n + |UsageOfAll(first)|
    ensures EventsOfAll(first + rest, n) == EventsOfAll(first, n) + EventsOfAll(rest, m)
  {
    if first == [] {
      assert first + rest == rest;
    } else {
      assert (first + rest)[1..] == rest && first[1..] == [];
      assert EventsOf(first[0], n) + [] == EventsOf(first[0], n);
    }
  }

  /** The channel loses, repeats and reorders nothing: what has been read is a beginning of the events of
      the frames read, and until the reader ends, what has been read, what is queued and what is still
      to be sent are exactly those events. */
  lemma {:induction false} ChannelKeepsOrder(s: State, ops: seq<Op>)
    ensures var sent := Stream(s) + EventsOfAll(FramesRead(s, ops), |s.recorded|);
            Run(s, ops).read <= sent && (Run(s, ops).reading && s.reading ==> Stream(Run(s, ops)) == sent)
    decreases |ops|
  {
    if ops == [] {
      assert Stream(s) + [] == Stream(s);
    } else {
      hide Step, Stream, EventsOfAll, FramesRead, Run, FrameRead;
      var s1, rest := Step(s, ops[0]), ops[1..];
      ChannelKeepsOrder(s1, rest);
      RunFirst(s, ops);
      if ops[0] == EndReader {
        EndStreams(s);
        EndedReadsNothing(s1, rest);
        NoEvents(Stream(s), |s.recorded|);
        NoEvents(Stream(s1), |s1.recorded|);
        EndReadsNothing(s, ops);
      } else {
        FirstFramesFirst(s, ops);
      }
    }
  }

  lemma RunFirst(s: State, ops: seq<Op>)
    requires ops != []
    ensures Run(s, ops) == Run(Step(s, ops[0]), ops[1..])
  {
  }

  lemma EndReadsNothing(s: State, ops: seq<Op>)
    requires ops != [] && ops[0] == EndReader && FramesRead(Step(s, EndReader), ops[1..]) == []
    ensures FramesRead(s, ops) == []
  {
  }

  /** The first operation's frame comes first in the stream. */
  lemma FirstFramesFirst(s: State, ops: seq<Op>)
    requires ops != [] && ops[0] != EndReader
    ensures var s1 := Step(s, ops[0]);
            Stream(s1) + EventsOfAll(FramesRead(s1, ops[1..]), |s1.recorded|) ==
            Stream(s) + EventsOfAll(FramesRead(s, ops), |s.recorded|)
  {
    hide Step, Stream, EventsOfAll, UsageOfAll;
    var s1, first := Step(s, ops[0]), FrameRead(s, ops[0]);
    var rest := FramesRead(s1, ops[1..]);
    StepRecords(s, ops[0]);
    EventsOfFirst(first, rest, |s.recorded|, |s1.recorded|);
    StepStreams(s, ops[0]);
    RegroupEvents(Stream(s), EventsOfAll(first, |s.recorded|), EventsOfAll(rest, |s1.recorded|));
  }

  lemma EndStreams(s: State)
    ensures !Step(s, EndReader).reading && Stream(Step(s, EndReader)) <= Stream(s)
  {
    assert s.read + s.queue + [] == s.read + s.queue;
  }

  lemma NoEvents(stream: seq<Event>, n: nat)
    ensures stream + EventsOfAll([], n) == stream
  {
  }

  lemma {:induction false} EndedReadsNothing(s: State, ops: seq<Op>)
    requires !s.reading
    ensures FramesRead(s, ops) == [] && !Run(s, ops).reading
    decreases |ops|
  {
    if ops != [] {
      EndedReadsNothing(Step(s, ops[0]), ops[1..]);
    }
  }

  // ----- what gets through -----

  /** Each event is sent and handled in turn. */
  function Pump(n: nat): seq<Op> {
    if n == 0 then [] else [Send, Handle] + Pump(n - 1)
  }

  lemma {:induction false} RunAppend(s: State, a: seq<Op>, b: seq<Op>)
    ensures Run(s, a + b) == Run(Run(s, a), b)
    decreases |a|
  {
    if a == [] {
      assert a + b == b;
    } else {
      assert (a + b)[0] == a[0] && (a + b)[1..] == a[1..] + b;
      RunAppend(Step(s, a[0]), a[1..], b);
    }
  }

  lemma RunTwo(s: State, a: Op, b: Op)
    ensures Run(s, [a, b]) == Step(Step(s, a), b)
  {
    assert [a, b][1..] == [b] && [b][1..] == [];
    assert Run(Step(s, a), [b]) == Run(Step(Step(s, a), b), []);
  }

  lemma OnePumped(s: State)
    requires s.reading && !s.retired && s.queue == [] && s.pending != []
    ensures var s' := Step(Step(s, Send), Handle);
            && s'.read == s.read + [s.pending[0]] && s'.pending == s.pending[1..] && s'.queue == []
            && s'.reading && !s'.retired && s'.recorded == s.recorded
  {
  }

  lemma {:induction false} PumpDelivers(s: State)
    requires s.reading && !s.retired && s.queue == []
    ensures var s' := Run(s, Pump(|s.pending|));
            && s'.read == s.read + s.pending && s'.queue == [] && s'.pending == []
            && s'.reading && !s'.retired && s'.recorded == s.recorded
    decreases |s.pending|
  {
    if s.pending == [] {
      assert s.read + s.pending == s.read;
    } else {
      hide Step;
      var n := |s.pending|;
      var s1 := Step(Step(s, Send), Handle);
      OnePumped(s);
      RunTwo(s, Send, Handle);
      RunAppend(s, [Send, Handle], Pump(n - 1));
      PumpDelivers(s1);
      assert s.read + [s.pending[0]] + s.pending[1..] == s.read + s.pending;
    }
  }

  /** In a live session with nothing waiting, a frame that is read and pumped through is read whole by the
      room, and every usage recorded so far has been taken. */
  lemma FrameGetsThrough(ops: seq<Op>, f: Frame)
    requires WellFormedOps(ops) && WellFormed(f)
    requires var s := Run(Init(), ops); s.reading && !s.retired && s.pending == [] && s.queue == []
    ensures var s := Run(Init(), ops);
            var events := EventsOf(f, |s.recorded|);
            var s' := Run(Step(s, ReadFrame(f)), Pump(|events|));
            && s'.read == s.read + events && s'.ledger == [] && s'.taken == s'.recorded
            && s'.recorded == s.recorded + UsageOfAll([f])
  {
    var s := Run(Init(), ops);
    var s1 := Step(s, ReadFrame(f));
    var pump := Pump(|EventsOf(f, |s.recorded|)|);
    RunKeepsInv(Init(), ops);
    StepKeepsInv(s, ReadFrame(f));
    StepRecords(s, ReadFrame(f));
    PumpDelivers(s1);
    PumpIsWellFormed(|EventsOf(f, |s.recorded|)|);
    RunKeepsInv(s1, pump);
    NothingAhead(Run(s1, pump));
  }

  lemma {:induction false} PumpIsWellFormed(n: nat)
    ensures WellFormedOps(Pump(n))
    decreases n
  {
    if n > 0 {
      PumpIsWellFormed(n - 1);
    }
  }

  lemma NothingAhead(s: State)
    requires Inv(s) && s.reading && !s.retired && s.queue == [] && s.pending == []
    ensures s.ledger == [] && s.taken == s.recorded
  {
    assert s.queue + s.pending == [];
    assert |s.taken| == |s.recorded|;
    assert s.taken + s.drained + s.ledger == s.recorded;
    assert s.taken + [] + [] == s.taken;
  }

  /** A new session reads its first frame. */
  lemma FirstFrameGetsThrough(f: Frame)
    requires WellFormed(f)
    ensures var s' := Run(Step(Init(), ReadFrame(f)), Pump(|EventsOf(f, 0)|));
            s'.read == EventsOf(f, 0) && s'.taken == UsageOfAll([f])
  {
    FrameGetsThrough([], f);
    assert Init().read + EventsOf(f, 0) == EventsOf(f, 0);
    assert [] + UsageOfAll([f]) == UsageOfAll([f]);
  }

  /** A reader that has ended sends nothing more: only what was queued is still read. */
  lemma {:induction false} EndedSendsNothing(s: State, ops: seq<Op>)
    requires !s.reading && s.pending == []
    ensures Run(s, ops).read <= s.read + s.queue
    decreases |ops|
  {
    if ops == [] {
      assert s.read <= s.read + s.queue;
    } else {
      var s1 := Step(s, ops[0]);
      EndedStays(s, ops[0]);
      EndedSendsNothing(s1, ops[1..]);
    }
  }

  lemma EndedStays(s: State, op: Op)
    requires !s.reading && s.pending == []
    ensures var s1 := Step(s, op); !s1.reading && s1.pending == [] && s1.read + s1.queue == s.read + s.queue
  {
    if s.queue != [] {
      assert s.read + [s.queue[0]] + s.queue[1..] == s.read + s.queue;
    }
  }

  /** Whenever the reader is stopped, the room still reads at most what was queued by then. */
  lemma StoppedReaderIsSilent(s: State, ops: seq<Op>)
    ensures Run(Step(s, EndReader), ops).read <= s.read + s.queue
  {
    EndedSendsNothing(Step(s, EndReader), ops);
  }

  lemma {:induction false} RetiredHandlesNothing(s: State, ops: seq<Op>)
    requires s.retired
    ensures Run(s, ops).retired && Run(s, ops).handled == s.handled && Run(s, ops).taken == s.taken
    decreases |ops|
  {
    if ops != [] {
      RetiredHandlesNothing(Step(s, ops[0]), ops[1..]);
    }
  }

  /** Once the room retires a session it handles nothing more of it, whatever is still read. */
  lemma RetiringIsFinal(s: State, ops: seq<Op>)
    ensures Run(Step(s, Retire), ops).handled == s.handled && Run(Step(s, Retire), ops).taken == s.taken
  {
    RetiredHandlesNothing(Step(s, Retire), ops);
  }

  function Discards(n: nat): seq<Op> {
    if n == 0 then [] else [Discard] + Discards(n - 1)
  }

  /** A retired session's queue can be read out. */
  lemma {:induction false} RetiredIsReadOut(s: State)
    requires s.retired
    ensures Run(s, Discards(|s.queue|)).read == s.read + s.queue && Run(s, Discards(|s.queue|)).queue == []
    decreases |s.queue|
  {
    if s.queue == [] {
      assert s.read + s.queue == s.read;
    } else {
      var s1 := Step(s, Discard);
      RetiredIsReadOut(s1);
      assert ([Discard] + Discards(|s.queue| - 1))[1..] == Discards(|s.queue| - 1);
      assert s.read + [s.queue[0]] + s.queue[1..] == s.read + s.queue;
    }
  }

  // ----- the session's two ends of the ledger and the channel -----

  class Session {
    var usage: seq<Usage>
    var events: seq<Event>

    constructor ()
      ensures usage == [] && events == []
    {
      usage, events := [], [];
    }

    /** The reader's part: the observation first. */
    method Record(observation: Option<Usage>)
      modifies this`usage
      ensures usage == old(usage) + (match observation case Some(u) => [u] case None => [])
    {
      if observation.Some? {
        usage := usage + [observation.value];
      }
    }

    /** `try_send`: refused exactly when the channel is full. */
    method TrySend(event: Event) returns (sent: bool)
      modifies this`events
      ensures sent <==> |old(events)| < GEMINI_EVENT_QUEUE
      ensures events == if sent then old(events) + [event] else old(events)
    {
      sent := |events| < GEMINI_EVENT_QUEUE;
      if sent {
        events := events + [event];
      }
    }

    method TakeFront() returns (observation: Option<Usage>)
      modifies this`usage
      ensures (usage, observation) == TakeUsage(old(usage))
    {
      if usage == [] {
        return None;
      }
      observation := Some(usage[0]);
      usage := usage[1..];
    }

    method DrainUsage() returns (rest: seq<Usage>)
      modifies this`usage
      ensures rest == old(usage) && usage == []
    {
      rest := usage;
      usage := [];
    }

    /** One turn of the room loop. */
    method HandleNext(ghost s: State) returns (observation: Option<Usage>)
      requires Inv(s) && !s.retired && s.queue == events && s.ledger == usage
      modifies this
      ensures HandleOne(s).queue == events && HandleOne(s).ledger == usage
      ensures HandleOne(s).taken == s.taken + (match observation case Some(u) => [u] case None => [])
      ensures observation.Some? <==> old(events) != [] && old(events)[0].UsageRecorded?
    {
      observation := None;
      if events != [] {
        if events[0].UsageRecorded? {
          NextAnnouncesTheFront(s);
          observation := TakeFront();
        }
        events := events[1..];
      }
      assert s.taken + [] == s.taken;
    }
  }
}
