/** The interviewer's delivery state read off what has happened (src/agent.rs, 775-950). */
module DeliveryHistory {
  import opened InterviewerDelivery
  import opened Wrappers

  /** What closes the open line and forgets audio that waits for words. */
  predicate EndsTurn(op: Op) {
    op.OnComplete? || op.OnReplace? || op.OnCancel?
  }

  // ----- the open line, waiting audio, and what plays -----

  /** Words went to `line` last, and since then no turn ended and no audio closed a cut playout. */
  ghost predicate OpenFrom(ops: seq<Op>, i: int, line: nat) {
    && 0 <= i < |ops| && ops[i].OnTranscript? && ops[i].line == line
    && forall j :: i < j < |ops| ==> KeepsLine(ops[..j], ops[j])
  }

  ghost predicate KeepsLine(front: seq<Op>, op: Op) {
    !op.OnTranscript? && !EndsTurn(op) && !(op.OnAudio? && PlayoutOpen(front))
  }

  ghost predicate IsOpen(ops: seq<Op>, line: nat) {
    exists i :: OpenFrom(ops, i, line)
  }

  ghost predicate FindsNoLine(front: seq<Op>) {
    PlayoutOpen(front) || forall line: nat :: !IsOpen(front, line)
  }

  /** Audio came last, with no line to play for: it waits for the words that come next. */
  ghost predicate Waits(ops: seq<Op>, deadline: int) {
    && ops != [] && ops[|ops| - 1].OnAudio? && ops[|ops| - 1].deadline == deadline
    && FindsNoLine(ops[..|ops| - 1])
  }

  /** The operation gives `line` audio until `end`: its own while the line is open, or what waited for
      the line's first words. */
  ghost predicate GivesAudio(front: seq<Op>, op: Op, line: nat, end: int) {
    if op.OnAudio? then op.deadline == end && IsOpen(front, line) && !PlayoutOpen(front)
    else op.OnTranscript? && op.line == line && Waits(front, end)
  }

  /** The operation forgets what has finished playing. */
  ghost predicate Forgets(front: seq<Op>, op: Op) {
    op.OnAudio? || (op.OnTranscript? && exists end: int :: Waits(front, end))
  }

  /** The operation leaves audio of `line` until `end` playing. */
  ghost predicate LeavesPlaying(front: seq<Op>, op: Op, line: nat, end: int) {
    && !op.OnCancel? && (Forgets(front, op) ==> end > op.now)
    && forall other: int :: !GivesAudio(front, op, line, other)
  }

  ghost predicate PlaysFrom(ops: seq<Op>, i: int, line: nat, end: int) {
    && 0 <= i < |ops| && GivesAudio(ops[..i], ops[i], line, end)
    && forall j :: i < j < |ops| ==> LeavesPlaying(ops[..j], ops[j], line, end)
  }

  /** The line's audio plays until `end`: the last audio it was given, with no cut since and nothing
      forgotten since that had ended by then. */
  ghost predicate Plays(ops: seq<Op>, line: nat, end: int) {
    exists i :: PlaysFrom(ops, i, line, end)
  }

  lemma OpenStep(front: seq<Op>, op: Op, line: nat)
    ensures IsOpen(front + [op], line) <==>
              (op.OnTranscript? && op.line == line) || (IsOpen(front, line) && KeepsLine(front, op))
  {
    var ops := front + [op];
    Prefixes(front, op);
    if op.OnTranscript? && op.line == line {
      assert OpenFrom(ops, |front|, line);
    }
    if IsOpen(front, line) && KeepsLine(front, op) {
      var i :| OpenFrom(front, i, line);
      assert OpenFrom(ops, i, line);
    }
    if IsOpen(ops, line) && !(op.OnTranscript? && op.line == line) {
      var i :| OpenFrom(ops, i, line);
      assert OpenFrom(front, i, line) && KeepsLine(ops[..|front|], ops[|front|]);
    }
  }

  lemma Prefixes(front: seq<Op>, op: Op)
    ensures forall j :: 0 <= j < |front| ==> (front + [op])[j] == front[j]
    ensures forall j :: 0 <= j <= |front| ==> (front + [op])[..j] == front[..j]
    ensures (front + [op])[..|front|] == front && (front + [op])[|front|] == op
  {
  }

  lemma PlaysStep(front: seq<Op>, op: Op, line: nat, end: int)
    ensures Plays(front + [op], line, end) <==>
              GivesAudio(front, op, line, end) || (Plays(front, line, end) && LeavesPlaying(front, op, line, end))
  {
    var ops := front + [op];
    Prefixes(front, op);
    if GivesAudio(front, op, line, end) {
      assert PlaysFrom(ops, |front|, line, end);
    }
    if Plays(front, line, end) && LeavesPlaying(front, op, line, end) {
      var i :| PlaysFrom(front, i, line, end);
      assert PlaysFrom(ops, i, line, end);
    }
    if Plays(ops, line, end) && !GivesAudio(front, op, line, end) {
      var i :| PlaysFrom(ops, i, line, end);
      assert PlaysFrom(front, i, line, end) && LeavesPlaying(ops[..|front|], ops[|front|], line, end);
    }
  }

  // ----- marks, and the line that may still be extended -----

  ghost predicate WindowOpen(ops: seq<Op>) {
    GenerationOpen(ops) || PlayoutOpen(ops)
  }

  /** A cut marks the lines still playing and, if anything was cut, the open line; words of an open
      window mark their line. */
  ghost predicate Marks(front: seq<Op>, op: Op, line: nat) {
    if op.OnCancel? then
      || (exists end: int :: end > op.now && Plays(front, line, end))
      || (op.cut != Idle && IsOpen(front, line))
    else op.OnTranscript? && op.line == line && WindowOpen(front)
  }

  ghost predicate MarkedAt(ops: seq<Op>, i: int, line: nat) {
    0 <= i < |ops| && Marks(ops[..i], ops[i], line)
  }

  ghost predicate Marked(ops: seq<Op>, line: nat) {
    exists i :: MarkedAt(ops, i, line)
  }

  ghost predicate ClosesWindow(front: seq<Op>, op: Op) {
    (EndsGeneration(op) && GenerationOpen(front)) || ((op.OnAudio? || op.OnReplace?) && PlayoutOpen(front))
  }

  ghost predicate ExtendsFrom(ops: seq<Op>, i: int, line: nat) {
    && 0 <= i < |ops| && ops[i].OnTranscript? && ops[i].line == line && WindowOpen(ops[..i])
    && forall j :: i < j < |ops| ==> !ops[j].OnTranscript? && !ops[j].OnCancel? && !ClosesWindow(ops[..j], ops[j])
  }

  /** Words of a window still open went to the line last. */
  ghost predicate MayExtend(ops: seq<Op>, line: nat) {
    exists i :: ExtendsFrom(ops, i, line)
  }

  lemma MarkedStep(front: seq<Op>, op: Op, line: nat)
    ensures Marked(front + [op], line) <==> Marked(front, line) || Marks(front, op, line)
  {
    var ops := front + [op];
    Prefixes(front, op);
    if Marks(front, op, line) {
      assert MarkedAt(ops, |front|, line);
    }
    if Marked(front, line) {
      var i :| MarkedAt(front, i, line);
      assert MarkedAt(ops, i, line);
    }
    if Marked(ops, line) && !Marks(front, op, line) {
      var i :| MarkedAt(ops, i, line);
      assert MarkedAt(front, i, line);
    }
  }

  lemma MayExtendStep(front: seq<Op>, op: Op, line: nat)
    ensures MayExtend(front + [op], line) <==>
              || (op.OnTranscript? && op.line == line && WindowOpen(front))
              || (MayExtend(front, line) && !op.OnTranscript? && !op.OnCancel? && !ClosesWindow(front, op))
  {
    var ops := front + [op];
    Prefixes(front, op);
    if op.OnTranscript? && op.line == line && WindowOpen(front) {
      assert ExtendsFrom(ops, |front|, line);
    }
    if MayExtend(front, line) && !op.OnTranscript? && !op.OnCancel? && !ClosesWindow(front, op) {
      var i :| ExtendsFrom(front, i, line);
      assert ExtendsFrom(ops, i, line);
    }
    if MayExtend(ops, line) && !(op.OnTranscript? && op.line == line && WindowOpen(front)) {
      var i :| ExtendsFrom(ops, i, line);
      assert ExtendsFrom(front, i, line) && ops[|front|] == op && ops[..|front|] == front;
    }
  }

  // ----- one operation -----

  /** The open line still takes words. */
  ghost predicate OpenTakesWords(d: State) {
    d.current.Some? ==> if d.window.Some? then d.extendable == d.current else d.current.value !in d.uncertain
  }

  /** What holds of every state a run reaches. */
  ghost predicate Reached(d: State) {
    Inv(d) && OpenTakesWords(d)
  }

  /** Where an operation finds audio for the open line. */
  function Given(d: State, op: Op): Option<Playing> {
    match op
    case OnAudio(deadline, _) =>
      if d.current.Some? && d.window != Some(UntilNextAudio) then Some(Playing(d.current.value, deadline)) else None
    case OnTranscript(line, _) => if d.pendingAudio.Some? then Some(Playing(line, d.pendingAudio.value)) else None
    case _ => None
  }

  predicate Prunes(d: State, op: Op) {
    op.OnAudio? || (op.OnTranscript? && d.pendingAudio.Some?)
  }

  lemma AudioInWords(d: State, deadline: int, now: int)
    requires DistinctLines(d.queued) && OpenTakesWords(d)
    requires d.window.Some? && d.current.Some? ==> d.current.value in d.uncertain
    requires d.extendable.Some? ==> d.window.Some?
    ensures var d', closes := Audio(d, deadline, now), d.window == Some(UntilNextAudio);
            && d'.uncertain == d.uncertain && OpenTakesWords(d')
            && d'.current == (if closes then None else d.current)
            && d'.window == (if closes then None else d.window)
            && d'.extendable == (if closes then None else d.extendable)
            && d'.pendingAudio == (if d'.current.None? then Some(deadline) else d.pendingAudio)
  {
  }

  lemma AudioQueueInWords(d: State, deadline: int, now: int, p: Playing)
    requires DistinctLines(d.queued) && OpenTakesWords(d)
    requires d.window.Some? && d.current.Some? ==> d.current.value in d.uncertain
    requires d.extendable.Some? ==> d.window.Some?
    ensures var given := d.current.Some? && d.window != Some(UntilNextAudio);
            p in Audio(d, deadline, now).queued <==>
              if given && p.line == d.current.value then p.end == deadline else p in d.queued && p.end > now
  {
    PruneKeeps(d.queued, now);
    AudioInWords(d, deadline, now);
    if d.current.Some? && d.window != Some(UntilNextAudio) {
      ExtendPlays(Prune(d.queued, now), d.current.value, deadline, p);
    }
  }

  lemma StepKeepsReached(d: State, op: Op)
    requires Reached(d) && Allowed(d, op)
    ensures Reached(Step(d, op))
  {
    StepKeepsInv(d, op);
    match op
    case OnTranscript(line, now) =>
      var d1 := Mark(d, line);
      if d1.pendingAudio.Some? {
        AudioInWords(d1.(pendingAudio := None), d1.pendingAudio.value, now);
      }
    case OnAudio(deadline, now) => AudioInWords(d, deadline, now);
    case _ =>
  }

  lemma StepMovesLine(d: State, op: Op)
    requires Reached(d) && Allowed(d, op)
    ensures Step(d, op).current ==
            if op.OnTranscript? then Some(op.line)
            else if EndsTurn(op) || (op.OnAudio? && d.window == Some(UntilNextAudio)) then None else d.current
    ensures Step(d, op).pendingAudio ==
            if op.OnTranscript? || EndsTurn(op) then None
            else if d.current.None? || d.window == Some(UntilNextAudio) then Some(op.deadline) else None
  {
    match op
    case OnTranscript(line, now) =>
      var d1 := Mark(d, line);
      if d1.pendingAudio.Some? {
        AudioInWords(d1.(pendingAudio := None), d1.pendingAudio.value, now);
      }
    case OnAudio(deadline, now) => AudioInWords(d, deadline, now);
    case _ =>
  }

  lemma StepMovesQueue(d: State, op: Op, p: Playing)
    requires Reached(d) && Allowed(d, op)
    ensures p in Step(d, op).queued <==>
              || Given(d, op) == Some(p)
              || (p in d.queued && !op.OnCancel? && (Prunes(d, op) ==> p.end > op.now)
                  && !(Given(d, op).Some? && Given(d, op).value.line == p.line))
  {
    match op
    case OnTranscript(line, now) =>
      var d1 := Mark(d, line);
      if d1.pendingAudio.Some? {
        AudioQueueInWords(d1.(pendingAudio := None), d1.pendingAudio.value, now, p);
      }
    case OnAudio(deadline, now) => AudioQueueInWords(d, deadline, now, p);
    case _ =>
  }

  lemma StepMovesMarks(d: State, op: Op, line: nat)
    requires Reached(d) && Allowed(d, op)
    ensures line in Step(d, op).uncertain <==>
              || line in d.uncertain
              || (op.OnTranscript? && op.line == line && d.window.Some?)
              || (op.OnCancel? && ((exists p :: p in d.queued && p.line == line && p.end > op.now)
                                   || (op.cut != Idle && d.current == Some(line))))
  {
    match op
    case OnTranscript(l, now) =>
      var d1 := Mark(d, l);
      if d1.pendingAudio.Some? {
        AudioInWords(d1.(pendingAudio := None), d1.pendingAudio.value, now);
      }
    case OnAudio(deadline, now) => AudioInWords(d, deadline, now);
    case OnCancel(cut, now) =>
      CancelMarksExactly(d, cut, now, line);
      if p :| p in d.queued && p.line == line && p.end > now {
        var k :| 0 <= k < |d.queued| && d.queued[k] == p;
      }
    case _ =>
  }

  lemma StepMovesExtendable(d: State, op: Op)
    requires Reached(d) && Allowed(d, op)
    ensures Step(d, op).extendable ==
            if op.OnTranscript? then (if d.window.Some? then Some(op.line) else None)
            else if op.OnCancel? || op.OnReplace?
                    || (op.OnComplete? && d.window == Some(UntilCompletion))
                    || (op.OnAudio? && d.window == Some(UntilNextAudio)) then None
            else d.extendable
  {
    match op
    case OnTranscript(l, now) =>
      var d1 := Mark(d, l);
      if d1.pendingAudio.Some? {
        AudioInWords(d1.(pendingAudio := None), d1.pendingAudio.value, now);
      }
    case OnAudio(deadline, now) => AudioInWords(d, deadline, now);
    case _ =>
  }

  // ----- whole runs -----

  ghost predicate SameLine(ops: seq<Op>, d: State) {
    && (forall line: nat :: d.current == Some(line) <==> IsOpen(ops, line))
    && (forall end: int :: d.pendingAudio == Some(end) <==> Waits(ops, end))
  }

  ghost predicate SameQueue(ops: seq<Op>, d: State) {
    forall line: nat, end: int :: Playing(line, end) in d.queued <==> Plays(ops, line, end)
  }

  ghost predicate SameMarks(ops: seq<Op>, d: State) {
    && (forall line: nat :: line in d.uncertain <==> Marked(ops, line))
    && (forall line: nat :: d.extendable == Some(line) <==> MayExtend(ops, line))
  }

  ghost predicate SameWindow(ops: seq<Op>, d: State) {
    && (d.window == Some(UntilCompletion) <==> GenerationOpen(ops))
    && (d.window == Some(UntilNextAudio) <==> PlayoutOpen(ops))
  }

  /** Every field of the state is a reading of the operations. */
  ghost predicate ReadOff(ops: seq<Op>, d: State) {
    Reached(d) && SameWindow(ops, d) && SameLine(ops, d) && SameQueue(ops, d) && SameMarks(ops, d)
  }

  lemma LineFollows(front: seq<Op>, d: State, op: Op)
    requires ReadOff(front, d) && Allowed(d, op)
    ensures SameLine(front + [op], Step(d, op))
  {
    StepMovesLine(d, op);
    forall line: nat
      ensures Step(d, op).current == Some(line) <==> IsOpen(front + [op], line)
    {
      OpenStep(front, op, line);
    }
    assert d.current.None? <==> forall line: nat :: !IsOpen(front, line);
    forall end: int
      ensures Step(d, op).pendingAudio == Some(end) <==> Waits(front + [op], end)
    {
      Prefixes(front, op);
    }
  }

  lemma GivenIsRead(front: seq<Op>, d: State, op: Op, line: nat, end: int)
    requires ReadOff(front, d)
    ensures Given(d, op) == Some(Playing(line, end)) <==> GivesAudio(front, op, line, end)
    ensures Prunes(d, op) <==> Forgets(front, op)
  {
    assert d.current == Some(line) <==> IsOpen(front, line);
    assert d.pendingAudio == Some(end) <==> Waits(front, end);
    if d.pendingAudio.Some? {
      assert Waits(front, d.pendingAudio.value);
    }
  }

  lemma LeavesIsRead(front: seq<Op>, d: State, op: Op, line: nat, end: int)
    requires ReadOff(front, d)
    ensures LeavesPlaying(front, op, line, end) <==>
              && !op.OnCancel? && (Prunes(d, op) ==> end > op.now)
              && !(Given(d, op).Some? && Given(d, op).value.line == line)
  {
    GivenIsRead(front, d, op, line, end);
    forall other: int
      ensures Given(d, op) == Some(Playing(line, other)) <==> GivesAudio(front, op, line, other)
    {
      GivenIsRead(front, d, op, line, other);
    }
    if Given(d, op).Some? && Given(d, op).value.line == line {
      GivenIsRead(front, d, op, line, Given(d, op).value.end);
    }
  }

  lemma QueueFollows(front: seq<Op>, d: State, op: Op)
    requires ReadOff(front, d) && Allowed(d, op)
    ensures SameQueue(front + [op], Step(d, op))
  {
    forall line: nat, end: int
      ensures Playing(line, end) in Step(d, op).queued <==> Plays(front + [op], line, end)
    {
      StepMovesQueue(d, op, Playing(line, end));
      GivenIsRead(front, d, op, line, end);
      LeavesIsRead(front, d, op, line, end);
      PlaysStep(front, op, line, end);
    }
  }

  lemma WindowIsRead(ops: seq<Op>, d: State)
    requires SameWindow(ops, d)
    ensures d.window.Some? <==> WindowOpen(ops)
  {
    if d.window.Some? {
      match d.window.value
      case UntilCompletion =>
      case UntilNextAudio =>
    }
  }

  lemma MarksAreRead(front: seq<Op>, d: State, op: Op, line: nat)
    requires ReadOff(front, d)
    ensures Marks(front, op, line) <==>
              || (op.OnTranscript? && op.line == line && d.window.Some?)
              || (op.OnCancel? && ((exists p :: p in d.queued && p.line == line && p.end > op.now)
                                   || (op.cut != Idle && d.current == Some(line))))
  {
    WindowIsRead(front, d);
    if op.OnCancel? {
      if p :| p in d.queued && p.line == line && p.end > op.now {
        assert Playing(line, p.end) in d.queued;
        assert Plays(front, line, p.end);
      }
      if end: int :| end > op.now && Plays(front, line, end) {
        assert Playing(line, end) in d.queued;
      }
    }
  }

  lemma MarksFollow(front: seq<Op>, d: State, op: Op)
    requires ReadOff(front, d) && Allowed(d, op)
    ensures SameMarks(front + [op], Step(d, op))
  {
    forall line: nat
      ensures line in Step(d, op).uncertain <==> Marked(front + [op], line)
    {
      StepMovesMarks(d, op, line);
      MarksAreRead(front, d, op, line);
      MarkedStep(front, op, line);
    }
    StepMovesExtendable(d, op);
    WindowIsRead(front, d);
    forall line: nat
      ensures Step(d, op).extendable == Some(line) <==> MayExtend(front + [op], line)
    {
      MayExtendStep(front, op, line);
    }
  }

  lemma InitIsReadOff()
    ensures ReadOff([], Init())
  {
  }

  /** After every run whose words go only to lines that take them, every field is a reading of what
      happened: the open line, the audio that waits, which line plays until when, the marks, the line
      that may still be extended, and the window. */
  lemma {:induction false} StateIsHistory(ops: seq<Op>)
    requires AllowedRun(Init(), ops)
    ensures ReadOff(ops, Run(Init(), ops))
    decreases |ops|
  {
    if ops == [] {
      InitIsReadOff();
    } else {
      var front, op := ops[..|ops| - 1], ops[|ops| - 1];
      assert ops == front + [op];
      var d := Run(Init(), front);
      LastIsAllowed(Init(), front, op);
      RunSnoc(Init(), front, op);
      StateIsHistory(front);
      StepKeepsReached(d, op);
      WindowIsHistory(ops);
      LineFollows(front, d, op);
      QueueFollows(front, d, op);
      MarksFollow(front, d, op);
    }
  }

  lemma {:induction false} LastIsAllowed(d: State, front: seq<Op>, op: Op)
    requires AllowedRun(d, front + [op])
    ensures Allowed(Run(d, front), op)
    decreases |front|
  {
    if front != [] {
      assert (front + [op])[1..] == front[1..] + [op];
      LastIsAllowed(Step(d, front[0]), front[1..], op);
    }
  }

  /** Which line plays until when, by the run alone. */
  lemma QueueIsHistory(ops: seq<Op>, line: nat, end: int)
    requires AllowedRun(Init(), ops)
    ensures Playing(line, end) in Run(Init(), ops).queued <==> Plays(ops, line, end)
  {
    StateIsHistory(ops);
  }

  /** The lines a cut marks, by the run alone. */
  lemma CutMarksByHistory(ops: seq<Op>, cut: DeliveryCut, now: int, line: nat)
    requires AllowedRun(Init(), ops)
    ensures line in Step(Run(Init(), ops), OnCancel(cut, now)).uncertain <==>
              || Marked(ops, line)
              || (exists end: int :: end > now && Plays(ops, line, end))
              || (cut != Idle && IsOpen(ops, line))
  {
    var op := OnCancel(cut, now);
    StateIsHistory(ops);
    StepMovesMarks(Run(Init(), ops), op, line);
    MarksAreRead(ops, Run(Init(), ops), op, line);
  }

  /** Which lines take more words, by the run alone. */
  lemma AcceptedByHistory(ops: seq<Op>, line: nat)
    requires AllowedRun(Init(), ops)
    ensures Accepts(Run(Init(), ops), line) <==> !Marked(ops, line) || MayExtend(ops, line)
  {
    StateIsHistory(ops);
  }
}
