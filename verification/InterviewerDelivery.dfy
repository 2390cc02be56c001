/** Which interviewer lines a local cut left uncertain (src/agent.rs, 775-971). */
module InterviewerDelivery {
  import opened Wrappers

  datatype FragmentWindow = UntilCompletion | UntilNextAudio

  datatype DeliveryCut = Idle | Playout | Generation

  /** A line whose audio is still playing, until `end`. */
  datatype Playing = Playing(line: nat, end: int)

  datatype State = State(uncertain: set<nat>, current: Option<nat>, pendingAudio: Option<int>,
                         queued: seq<Playing>, window: Option<FragmentWindow>, extendable: Option<nat>)

  function Init(): State {
    State({}, None, None, [], None, None)
  }

  predicate Accepts(d: State, line: nat) {
    line !in d.uncertain || d.extendable == Some(line)
  }

  /** What has not finished playing by `now`, in order. */
  function Prune(queued: seq<Playing>, now: int): seq<Playing> {
    if queued == [] then []
    else (if queued[0].end > now then [queued[0]] else []) + Prune(queued[1..], now)
  }

  function IndexOf(queued: seq<Playing>, line: nat): (at: Option<nat>)
    ensures at.None? ==> forall k :: 0 <= k < |queued| ==> queued[k].line != line
    ensures at.Some? ==> at.value < |queued| && queued[at.value].line == line
  {
    if queued == [] then None
    else if queued[0].line == line then Some(0)
    else
      match IndexOf(queued[1..], line)
      case None => None
      case Some(k) => Some(k + 1)
  }

  /** The queue once `line` plays until `deadline`. */
  function Extend(queued: seq<Playing>, line: nat, deadline: int): seq<Playing> {
    match IndexOf(queued, line)
    case Some(k) => queued[k := Playing(line, deadline)]
    case None => queued + [Playing(line, deadline)]
  }

  function CloseAudioWindow(d: State): State {
    if d.window == Some(UntilNextAudio) then d.(window := None, extendable := None) else d
  }

  function DropSealedCurrent(d: State): State {
    if d.current.Some? && !Accepts(d, d.current.value) then d.(current := None) else d
  }

  function Audio(d: State, deadline: int, now: int): State {
    var d1 := DropSealedCurrent(CloseAudioWindow(d));
    var d2 := d1.(queued := Prune(d1.queued, now));
    if d2.current.Some? then d2.(queued := Extend(d2.queued, d2.current.value, deadline))
    else d2.(pendingAudio := Some(deadline))
  }

  function Mark(d: State, line: nat): State {
    if d.window.Some?
    then d.(current := Some(line), uncertain := d.uncertain + {line}, extendable := Some(line))
    else d.(current := Some(line))
  }

  function Transcript(d: State, line: nat, now: int): State {
    var d1 := Mark(d, line);
    if d1.pendingAudio.Some? then Audio(d1.(pendingAudio := None), d1.pendingAudio.value, now) else d1
  }

  function Complete(d: State): State {
    var d1 := d.(current := None, pendingAudio := None);
    if d1.window == Some(UntilCompletion) then d1.(window := None, extendable := None) else d1
  }

  function Replace(d: State): State {
    Complete(d).(window := None, extendable := None)
  }

  function Lines(queued: seq<Playing>): (lines: set<nat>)
    ensures forall x :: x in lines <==> exists k :: 0 <= k < |queued| && queued[k].line == x
  {
    set k | 0 <= k < |queued| :: queued[k].line
  }

  function WindowAfter(window: Option<FragmentWindow>, cut: DeliveryCut): Option<FragmentWindow> {
    match cut
    case Idle => window
    case Playout => if window == Some(UntilCompletion) then window else Some(UntilNextAudio)
    case Generation => Some(UntilCompletion)
  }

  function Cancel(d: State, cut: DeliveryCut, now: int): State {
    var marked := Lines(Prune(d.queued, now)) + if d.current.Some? && cut != Idle then {d.current.value} else {};
    State(d.uncertain + marked, None, None, [], WindowAfter(d.window, cut), None)
  }

  // ----- the object -----

  class Delivery {
    var uncertain: set<nat>
    var current: Option<nat>
    var pendingAudio: Option<int>
    var queued: seq<Playing>
    var window: Option<FragmentWindow>
    var extendable: Option<nat>

    constructor ()
      ensures View() == Init()
    {
      uncertain, current, pendingAudio, queued, window, extendable := {}, None, None, [], None, None;
    }

    ghost function View(): State
      reads this
    {
      State(uncertain, current, pendingAudio, queued, window, extendable)
    }

    predicate IsAccepted(line: nat)
      reads this
    {
      line !in uncertain || extendable == Some(line)
    }

    method PruneQueue(now: int)
      modifies this`queued
      ensures queued == Prune(old(queued), now)
    {
      var kept: seq<Playing> := [];
      var rest := queued;
      while rest != []
        invariant kept + Prune(rest, now) == Prune(queued, now)
        decreases |rest|
      {
        if rest[0].end > now {
          assert kept + ([rest[0]] + Prune(rest[1..], now)) == (kept + [rest[0]]) + Prune(rest[1..], now);
          kept := kept + [rest[0]];
        }
        rest := rest[1..];
      }
      queued := kept;
    }

    method AudioQueued(deadline: int, now: int)
      modifies this
      ensures View() == Audio(old(View()), deadline, now)
    {
      if window == Some(UntilNextAudio) {
        window := None;
        extendable := None;
      }
      if current.Some? && !IsAccepted(current.value) {
        current := None;
      }
      PruneQueue(now);
      match current {
        case Some(line) =>
          match IndexOf(queued, line) {
            case Some(k) => queued := queued[k := Playing(line, deadline)];
            case None => queued := queued + [Playing(line, deadline)];
          }
        case None => pendingAudio := Some(deadline);
      }
    }

    method TranscriptLine(line: nat, now: int)
      modifies this
      ensures View() == Transcript(old(View()), line, now)
    {
      current := Some(line);
      if window.Some? {
        uncertain := uncertain + {line};
        extendable := Some(line);
      }
      if pendingAudio.Some? {
        var deadline := pendingAudio.value;
        pendingAudio := None;
        AudioQueued(deadline, now);
      }
    }

    method Completed()
      modifies this
      ensures View() == Complete(old(View()))
    {
      current := None;
      pendingAudio := None;
      if window == Some(UntilCompletion) {
        window := None;
        extendable := None;
      }
    }

    method Replaced()
      modifies this
      ensures View() == Replace(old(View()))
    {
      Completed();
      window := None;
      extendable := None;
    }

    method Cancelled(cut: DeliveryCut, now: int)
      modifies this
      ensures View() == Cancel(old(View()), cut, now)
    {
      PruneQueue(now);
      uncertain := uncertain + Lines(queued);
      queued := [];
      if current.Some? && cut != Idle {
        uncertain := uncertain + {current.value};
      }
      current := None;
      pendingAudio := None;
      extendable := None;
      match cut {
        case Idle =>
        case Playout =>
          if window != Some(UntilCompletion) {
            window := Some(UntilNextAudio);
          }
        case Generation => window := Some(UntilCompletion);
      }
    }
  }

  // ----- runs -----

  datatype Op =
    | OnTranscript(line: nat, now: int)
    | OnAudio(deadline: int, now: int)
    | OnComplete
    | OnReplace
    | OnCancel(cut: DeliveryCut, now: int)

  function Step(d: State, op: Op): State {
    match op
    case OnTranscript(line, now) => Transcript(d, line, now)
    case OnAudio(deadline, now) => Audio(d, deadline, now)
    case OnComplete => Complete(d)
    case OnReplace => Replace(d)
    case OnCancel(cut, now) => Cancel(d, cut, now)
  }

  /** A fragment goes only to a line the state accepts; the session opens a new line otherwise. */
  predicate Allowed(d: State, op: Op) {
    op.OnTranscript? ==> Accepts(d, op.line)
  }

  function Run(d: State, ops: seq<Op>): State
    decreases |ops|
  {
    if ops == [] then d else Run(Step(d, ops[0]), ops[1..])
  }

  ghost predicate AllowedRun(d: State, ops: seq<Op>)
    decreases |ops|
  {
    ops != [] ==> Allowed(d, ops[0]) && AllowedRun(Step(d, ops[0]), ops[1..])
  }

  ghost predicate DistinctLines(queued: seq<Playing>) {
    forall i, j :: 0 <= i < j < |queued| ==> queued[i].line != queued[j].line
  }

  ghost predicate Inv(d: State) {
    && (d.window.Some? && d.current.Some? ==> d.current.value in d.uncertain)
    && (d.pendingAudio.Some? ==> d.current.None? && d.window != Some(UntilNextAudio))
    && (d.extendable.Some? ==> d.window.Some? && d.extendable.value in d.uncertain)
    && DistinctLines(d.queued)
  }

  lemma {:induction false} PruneKeeps(queued: seq<Playing>, now: int)
    ensures forall k :: 0 <= k < |Prune(queued, now)| ==> Prune(queued, now)[k] in queued && Prune(queued, now)[k].end > now
    ensures forall k :: 0 <= k < |queued| && queued[k].end > now ==> queued[k] in Prune(queued, now)
    ensures DistinctLines(queued) ==> DistinctLines(Prune(queued, now))
    decreases |queued|
  {
    if queued != [] {
      var rest := Prune(queued[1..], now);
      PruneKeeps(queued[1..], now);
      assert queued == [queued[0]] + queued[1..];
      if DistinctLines(queued) {
        assert DistinctLines(queued[1..]);
        forall k | 0 <= k < |rest|
          ensures rest[k].line != queued[0].line
        {
          assert rest[k] in queued[1..];
        }
      }
    }
  }

  lemma ExtendKeepsDistinct(queued: seq<Playing>, line: nat, deadline: int)
    requires DistinctLines(queued)
    ensures DistinctLines(Extend(queued, line, deadline))
  {
  }

  lemma AudioKeepsInv(d: State, deadline: int, now: int)
    requires DistinctLines(d.queued)
    requires d.window.Some? && d.current.Some? ==> d.current.value in d.uncertain
    requires d.pendingAudio.Some? ==> d.current.None?
    requires d.extendable.Some? ==> d.window.Some? && d.extendable.value in d.uncertain
    ensures Inv(Audio(d, deadline, now))
  {
    PruneKeeps(d.queued, now);
    if d.current.Some? {
      ExtendKeepsDistinct(Prune(d.queued, now), d.current.value, deadline);
    }
  }

  lemma StepKeepsInv(d: State, op: Op)
    requires Inv(d)
    ensures Inv(Step(d, op))
  {
    match op
    case OnTranscript(line, now) =>
      var d1 := Mark(d, line);
      if d1.pendingAudio.Some? {
        AudioKeepsInv(d1.(pendingAudio := None), d1.pendingAudio.value, now);
      }
    case OnAudio(deadline, now) => AudioKeepsInv(d, deadline, now);
    case _ =>
  }

  /** Marks grow, and a line that takes no more fragments never takes one again. */
  ghost predicate Onward(d: State, d': State) {
    && d.uncertain <= d'.uncertain
    && forall line: nat :: !Accepts(d, line) ==> !Accepts(d', line)
  }

  lemma StepIsOnward(d: State, op: Op)
    requires Allowed(d, op)
    ensures Onward(d, Step(d, op))
  {
  }

  /** Over every run whose fragments go only to accepted lines. */
  lemma {:induction false} RunIsSound(d: State, ops: seq<Op>)
    requires Inv(d) && AllowedRun(d, ops)
    ensures Inv(Run(d, ops)) && Onward(d, Run(d, ops))
    decreases |ops|
  {
    if ops != [] {
      StepKeepsInv(d, ops[0]);
      StepIsOnward(d, ops[0]);
      RunIsSound(Step(d, ops[0]), ops[1..]);
    }
  }

  lemma InitIsSound()
    ensures Inv(Init())
  {
  }

  /** Words of an open window land on a marked line; words after every window has closed land on an
      unmarked one, so nothing said later hides inside text the readers omit. */
  lemma WindowsSeparateText(d: State, line: nat, now: int)
    requires Inv(d) && Accepts(d, line)
    ensures d.window.Some? ==> line in Transcript(d, line, now).uncertain
    ensures d.window.None? ==> line !in Transcript(d, line, now).uncertain
  {
  }

  /** A cut marks exactly the lines still playing, and the open line if anything was cut. */
  lemma CancelMarksExactly(d: State, cut: DeliveryCut, now: int, line: nat)
    ensures line in Cancel(d, cut, now).uncertain <==>
              || line in d.uncertain
              || (exists k :: 0 <= k < |d.queued| && d.queued[k].line == line && d.queued[k].end > now)
              || (cut != Idle && d.current == Some(line))
  {
    PruneKeeps(d.queued, now);
    var playing := Prune(d.queued, now);
    if k :| 0 <= k < |d.queued| && d.queued[k].line == line && d.queued[k].end > now {
      assert d.queued[k] in playing;
      assert line in Lines(playing);
    }
    if line in Lines(playing) {
      var k :| 0 <= k < |playing| && playing[k].line == line;
      assert playing[k] in d.queued;
    }
  }

  // ----- windows and the queue, by what happened -----

  predicate IsCut(op: Op, cut: DeliveryCut) {
    op.OnCancel? && op.cut == cut
  }

  predicate EndsGeneration(op: Op) {
    op.OnComplete? || op.OnReplace?
  }

  predicate EndsPlayout(op: Op) {
    op.OnAudio? || op.OnReplace? || IsCut(op, Generation)
  }

  /** A running generation was cut and nothing has completed or replaced it since. */
  ghost predicate GenerationOpen(ops: seq<Op>) {
    exists i :: GenerationCutAt(ops, i)
  }

  ghost predicate GenerationCutAt(ops: seq<Op>, i: int) {
    0 <= i < |ops| && IsCut(ops[i], Generation) && forall j :: i < j < |ops| ==> !EndsGeneration(ops[j])
  }

  /** Completed output was cut outside such a generation, and since then no audio has come, nothing was
      replaced, and no generation was cut. */
  ghost predicate PlayoutOpen(ops: seq<Op>) {
    exists i :: PlayoutCutAt(ops, i)
  }

  ghost predicate PlayoutCutAt(ops: seq<Op>, i: int) {
    && 0 <= i < |ops| && IsCut(ops[i], Playout) && !GenerationOpen(ops[..i])
    && forall j :: i < j < |ops| ==> !EndsPlayout(ops[j])
  }

  lemma GenerationOpenStep(front: seq<Op>, op: Op)
    ensures GenerationOpen(front + [op]) <==> IsCut(op, Generation) || (GenerationOpen(front) && !EndsGeneration(op))
  {
    var ops := front + [op];
    assert forall j :: 0 <= j < |front| ==> ops[j] == front[j];
    if IsCut(op, Generation) {
      assert GenerationCutAt(ops, |front|);
    }
    if GenerationOpen(front) && !EndsGeneration(op) {
      var i :| GenerationCutAt(front, i);
      assert GenerationCutAt(ops, i);
    }
    if GenerationOpen(ops) && !IsCut(op, Generation) {
      var i :| GenerationCutAt(ops, i);
      assert GenerationCutAt(front, i) && !EndsGeneration(ops[|front|]);
    }
  }

  lemma PlayoutOpenStep(front: seq<Op>, op: Op)
    ensures PlayoutOpen(front + [op]) <==>
              (IsCut(op, Playout) && !GenerationOpen(front)) || (PlayoutOpen(front) && !EndsPlayout(op))
  {
    var ops := front + [op];
    assert forall j :: 0 <= j < |front| ==> ops[j] == front[j];
    assert forall j :: 0 <= j <= |front| ==> ops[..j] == front[..j];
    assert front[..|front|] == front;
    if IsCut(op, Playout) && !GenerationOpen(front) {
      assert PlayoutCutAt(ops, |front|);
    }
    if PlayoutOpen(front) && !EndsPlayout(op) {
      var i :| PlayoutCutAt(front, i);
      assert PlayoutCutAt(ops, i);
    }
    if PlayoutOpen(ops) && !(IsCut(op, Playout) && !GenerationOpen(front)) {
      var i :| PlayoutCutAt(ops, i);
      assert PlayoutCutAt(front, i) && !EndsPlayout(ops[|front|]);
    }
  }

  lemma {:induction false} RunSnoc(d: State, front: seq<Op>, op: Op)
    ensures Run(d, front + [op]) == Step(Run(d, front), op)
    ensures AllowedRun(d, front + [op]) ==> AllowedRun(d, front)
    decreases |front|
  {
    if front == [] {
      assert [op][1..] == [];
    } else {
      assert (front + [op])[1..] == front[1..] + [op];
      RunSnoc(Step(d, front[0]), front[1..], op);
    }
  }

  /** One step against the two histories: late words never move a window, since audio that still waits
      for its words rules out the window that audio would close. */
  lemma StepMovesWindow(d: State, op: Op)
    requires Inv(d)
    ensures Step(d, op).window == Some(UntilCompletion) <==>
              IsCut(op, Generation) || (d.window == Some(UntilCompletion) && !EndsGeneration(op))
    ensures Step(d, op).window == Some(UntilNextAudio) <==>
              || (IsCut(op, Playout) && d.window != Some(UntilCompletion))
              || (d.window == Some(UntilNextAudio) && !EndsPlayout(op))
  {
  }

  /** A window is open exactly when the history says so, and which one. */
  lemma {:induction false} WindowIsHistory(ops: seq<Op>)
    requires AllowedRun(Init(), ops)
    ensures Run(Init(), ops).window == Some(UntilCompletion) <==> GenerationOpen(ops)
    ensures Run(Init(), ops).window == Some(UntilNextAudio) <==> PlayoutOpen(ops)
    decreases |ops|
  {
    if ops != [] {
      var front, op := ops[..|ops| - 1], ops[|ops| - 1];
      assert ops == front + [op];
      RunSnoc(Init(), front, op);
      WindowIsHistory(front);
      InitIsSound();
      RunIsSound(Init(), front);
      StepMovesWindow(Run(Init(), front), op);
      GenerationOpenStep(front, op);
      PlayoutOpenStep(front, op);
    }
  }

  /** Audio plays for the open line if it still takes words, replacing the line's earlier end; every
      other line stays queued until it has finished, and audio with no open line waits for one. */
  lemma AudioPlaysExactly(d: State, deadline: int, now: int, p: Playing)
    requires Inv(d)
    ensures var d' := Audio(d, deadline, now);
            var open := if d'.current.Some? then {d'.current.value} else {};
            && (p in d'.queued <==> if p.line in open then p.end == deadline else p in d.queued && p.end > now)
            && (d'.current.None? ==> d'.pendingAudio == Some(deadline))
            && (d'.current.Some? ==> d'.current == d.current && d'.pendingAudio == d.pendingAudio)
            && (d'.current.Some? <==> d.current.Some? && Accepts(CloseAudioWindow(d), d.current.value))
  {
    PruneKeeps(d.queued, now);
    var d' := Audio(d, deadline, now);
    if d'.current.Some? {
      ExtendPlays(Prune(d.queued, now), d'.current.value, deadline, p);
    }
  }

  lemma ExtendPlays(queued: seq<Playing>, line: nat, deadline: int, p: Playing)
    requires DistinctLines(queued)
    ensures p in Extend(queued, line, deadline) <==> if p.line == line then p.end == deadline else p in queued
  {
    var extended := Extend(queued, line, deadline);
    match IndexOf(queued, line) {
      case Some(k) =>
        assert extended[k] == Playing(line, deadline);
        assert forall j :: 0 <= j < |queued| && j != k ==> extended[j] == queued[j] && queued[j].line != line;
      case None =>
        assert extended[|queued|] == Playing(line, deadline);
        assert forall j :: 0 <= j < |queued| ==> extended[j] == queued[j];
    }
  }

  // ----- what model readers see -----

  const CANCELLED: string := "[Interviewer output cancelled; delivery uncertain; generated words omitted.]"

  /** The transcript with every marked line replaced, and the transcript itself when none is marked. */
  function Shown(transcript: seq<string>, uncertain: set<nat>, speaker: string): seq<string> {
    if uncertain == {} then transcript
    else seq(|transcript|, k requires 0 <= k < |transcript| =>
               if k in uncertain then speaker + ": " + CANCELLED else transcript[k])
  }

  /** Once a line is omitted no later reader sees it, and an unmarked line is shown word for word. */
  lemma OmittedStaysOmitted(d: State, ops: seq<Op>, transcript: seq<string>, speaker: string, k: nat)
    requires Inv(d) && AllowedRun(d, ops) && k < |transcript|
    ensures |Shown(transcript, Run(d, ops).uncertain, speaker)| == |transcript|
    ensures k in d.uncertain ==> Shown(transcript, Run(d, ops).uncertain, speaker)[k] == speaker + ": " + CANCELLED
    ensures k !in Run(d, ops).uncertain ==> Shown(transcript, Run(d, ops).uncertain, speaker)[k] == transcript[k]
  {
    RunIsSound(d, ops);
  }
}
