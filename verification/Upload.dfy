/** The resumable upload loop against any server (src/delivery.rs, 32-56, 449-462, 556-672, 772-797). */
module Upload {
  import opened Wrappers

  const UPLOAD_CHUNK_BYTES: nat := 8 * 1024 * 1024
  const UPLOAD_RETRY_BUDGET: nat := 8
  const TRANSFER_DEADLINE_SECONDS: int := 1800
  const U64_MAX: nat := 0xFFFF_FFFF_FFFF_FFFF

  predicate Retryable(status: nat) {
    status == 429 || status == 500 || status == 502 || status == 503 || status == 504
  }

  type Byte = b: int | 0 <= b < 256

  /** A `Range` answer header: absent, `bytes=0-end`, or anything else. */
  datatype Range = NoRange | UpTo(end: nat) | Unreadable

  /** A finished upload's body: not JSON, JSON without an id, or a file id. */
  datatype Body = NotJson | NoId | FileId(id: string)

  datatype Answer = NoAnswer | Http(status: nat, range: Range, body: Body)

  /** Everything outside the loop during one turn: the clock, whether the token and the object's bytes
      were to be had, the answer to the chunk, and the answer to a progress query. */
  datatype Turn = Turn(now: int, token: bool, bytes: bool, chunk: Answer, progress: Answer)

  type Server = nat -> Turn

  datatype Failure =
    | PastDeadline | NoToken | NoObject | BadBody | BadRange | NoProgress | Refused | OutOfRetries
    | NoProgressAnswer | SessionGone | Unanswered

  datatype Result = Ok(id: string) | Err(failure: Failure)

  /** How a session that holds `held` bytes may report it: no range for none, the last offset
      otherwise, or something unreadable. */
  ghost predicate RangeSays(range: Range, held: nat) {
    match range
    case NoRange => held == 0
    case UpTo(end) => held == end + 1
    case Unreadable => true
  }

  /** `stored_bytes`: what the header reports, and nothing where it cannot be acted on. */
  function StoredBytes(range: Range, total: nat): (stored: Option<nat>)
    ensures stored.Some? ==> stored.value <= total
  {
    match range
    case NoRange => Some(0)
    case Unreadable => None
    case UpTo(end) => if end + 1 > U64_MAX || end + 1 > total then None else Some(end + 1)
  }

  /** A readable header is read exactly when what it reports can be held and fits the object. */
  lemma StoredBytesReadsBack(range: Range, total: nat, held: nat)
    requires total <= U64_MAX && RangeSays(range, held)
    ensures StoredBytes(range, total).Some? <==> !range.Unreadable? && held <= total
    ensures StoredBytes(range, total).Some? ==> StoredBytes(range, total).value == held
  {
  }

  /** What one turn decides. */
  datatype Verdict = Finish(result: Result) | Advance(sent: nat) | Retry(sent: nat)

  function AfterFailure(turn: Turn, total: nat, budget: nat): Verdict {
    if budget == 0 then Finish(Err(OutOfRetries))
    else if turn.progress.NoAnswer? then Finish(Err(NoProgressAnswer))
    else if turn.progress.status != 308 then Finish(Err(SessionGone))
    else
      match StoredBytes(turn.progress.range, total)
      case None => Finish(Err(BadRange))
      case Some(received) => Retry(received)
  }

  function Finished(body: Body): Result {
    match body
    case FileId(id) => Ok(id)
    case _ => Err(BadBody)
  }

  function Decide(turn: Turn, total: nat, sent: nat, budget: nat): (v: Verdict)
    requires sent <= total
    ensures v.Advance? ==> sent < v.sent <= total
    ensures v.Retry? ==> v.sent <= total && budget > 0
  {
    if turn.chunk.NoAnswer? then AfterFailure(turn, total, budget)
    else
      var status := turn.chunk.status;
      if status == 200 || status == 201 then Finish(Finished(turn.chunk.body))
      else if status == 308 then
        (match StoredBytes(turn.chunk.range, total)
         case None => Finish(Err(BadRange))
         case Some(stored) =>
           if stored > sent then Advance(stored)
           else if budget == 0 then Finish(Err(NoProgress))
           else Retry(sent))
      else if !Retryable(status) then Finish(Err(Refused))
      else AfterFailure(turn, total, budget)
  }

  /** One chunk as it was put: the offset it starts at and the last offset it carries. */
  datatype Put = Put(start: nat, last: nat)

  function Min(a: nat, b: nat): nat {
    if a < b then a else b
  }

  function ChunkAt(sent: nat, total: nat): Put
    requires sent < total
  {
    Put(sent, Min(sent + UPLOAD_CHUNK_BYTES, total) - 1)
  }

  /** The whole loop from turn `i`: the chunks put, and how it ended. It ends against every server, by
      the measure (budget, bytes left). */
  function Loop(server: Server, deadline: int, total: nat, i: nat, sent: nat, budget: nat): (seq<Put>, Result)
    requires sent <= total
    decreases budget, total - sent
  {
    if sent == total then ([], Err(Unanswered))
    else
      var turn := server(i);
      if turn.now >= deadline then ([], Err(PastDeadline))
      else if !turn.token then ([], Err(NoToken))
      else if !turn.bytes then ([], Err(NoObject))
      else
        var put := ChunkAt(sent, total);
        match Decide(turn, total, sent, budget)
        case Finish(result) => ([put], result)
        case Advance(stored) =>
          var (puts, result) := Loop(server, deadline, total, i + 1, stored, budget);
          ([put] + puts, result)
        case Retry(stored) =>
          var (puts, result) := Loop(server, deadline, total, i + 1, stored, budget - 1);
          ([put] + puts, result)
  }

  /** `done`, followed by the loop from here on, is the whole. */
  ghost predicate Remains(server: Server, deadline: int, total: nat, i: nat, sent: nat, budget: nat,
                          done: seq<Put>, whole: (seq<Put>, Result))
  {
    && sent <= total
    && done + Loop(server, deadline, total, i, sent, budget).0 == whole.0
    && Loop(server, deadline, total, i, sent, budget).1 == whole.1
  }

  /** Why a turn puts no chunk, if it puts none. */
  function Stops(turn: Turn, deadline: int): Option<Failure> {
    if turn.now >= deadline then Some(PastDeadline)
    else if !turn.token then Some(NoToken)
    else if !turn.bytes then Some(NoObject)
    else None
  }

  lemma LoopStops(server: Server, deadline: int, total: nat, i: nat, sent: nat, budget: nat, done: seq<Put>,
                  whole: (seq<Put>, Result))
    requires Remains(server, deadline, total, i, sent, budget, done, whole)
    ensures sent == total ==> done == whole.0 && Err(Unanswered) == whole.1
    ensures sent < total && Stops(server(i), deadline).Some? ==>
              done == whole.0 && Err(Stops(server(i), deadline).value) == whole.1
  {
    assert done + [] == done;
  }

  /** One turn that puts a chunk, after the chunks in `done`. */
  lemma LoopTurn(server: Server, deadline: int, total: nat, i: nat, sent: nat, budget: nat, done: seq<Put>,
                 whole: (seq<Put>, Result))
    requires Remains(server, deadline, total, i, sent, budget, done, whole)
    requires sent < total && Stops(server(i), deadline).None?
    ensures var more := done + [ChunkAt(sent, total)];
            match Decide(server(i), total, sent, budget)
            case Finish(result) => more == whole.0 && result == whole.1
            case Advance(stored) => Remains(server, deadline, total, i + 1, stored, budget, more, whole)
            case Retry(stored) => Remains(server, deadline, total, i + 1, stored, budget - 1, more, whole)
  {
    var put := ChunkAt(sent, total);
    match Decide(server(i), total, sent, budget)
    case Finish(result) =>
    case Advance(stored) => Regroup(done, put, Loop(server, deadline, total, i + 1, stored, budget).0);
    case Retry(stored) => Regroup(done, put, Loop(server, deadline, total, i + 1, stored, budget - 1).0);
  }

  lemma Regroup(done: seq<Put>, put: Put, rest: seq<Put>)
    ensures done + ([put] + rest) == done + [put] + rest
  {
  }

  /** The loop of `transfer`, with the chunks it put as a record of what it did. */
  method Transfer(server: Server, started: int, total: nat) returns (puts: seq<Put>, result: Result)
    ensures puts == Loop(server, started + TRANSFER_DEADLINE_SECONDS, total, 0, 0, UPLOAD_RETRY_BUDGET).0
    ensures result == Loop(server, started + TRANSFER_DEADLINE_SECONDS, total, 0, 0, UPLOAD_RETRY_BUDGET).1
  {
    var deadline := started + TRANSFER_DEADLINE_SECONDS;
    var sent, budget, i := 0, UPLOAD_RETRY_BUDGET, 0;
    ghost var whole := Loop(server, deadline, total, 0, 0, UPLOAD_RETRY_BUDGET);
    puts := [];
    while sent < total
      invariant Remains(server, deadline, total, i, sent, budget, puts, whole)
      decreases budget, total - sent
    {
      var turn := server(i);
      LoopStops(server, deadline, total, i, sent, budget, puts, whole);
      if turn.now >= deadline {
        return puts, Err(PastDeadline);
      }
      if !turn.token {
        return puts, Err(NoToken);
      }
      if !turn.bytes {
        return puts, Err(NoObject);
      }
      LoopTurn(server, deadline, total, i, sent, budget, puts, whole);
      var verdict := Decide(turn, total, sent, budget);
      puts := puts + [ChunkAt(sent, total)];
      match verdict {
        case Finish(outcome) =>
          return puts, outcome;
        case Advance(stored) =>
          sent := stored;
        case Retry(stored) =>
          budget := budget - 1;
          sent := stored;
      }
      i := i + 1;
    }
    LoopStops(server, deadline, total, i, sent, budget, puts, whole);
    return puts, Err(Unanswered);
  }

  /** How much a server can make the loop do: a bound in the budget and the object's size alone. */
  lemma {:induction false} LoopIsBounded(server: Server, deadline: int, total: nat, i: nat, sent: nat, budget: nat)
    requires sent <= total
    ensures |Loop(server, deadline, total, i, sent, budget).0| <= budget * total + (total - sent)
    decreases budget, total - sent
  {
    if sent < total {
      var v := Decide(server(i), total, sent, budget);
      if v.Advance? {
        LoopIsBounded(server, deadline, total, i + 1, v.sent, budget);
      } else if v.Retry? {
        LoopIsBounded(server, deadline, total, i + 1, v.sent, budget - 1);
        assert budget * total == (budget - 1) * total + total;
      } else {
        assert budget * total >= 0;
      }
    }
  }

  // ----- a session that never loses bytes -----

  /** A report of at most what is held. */
  ghost predicate Reports(answer: Answer, held: nat) {
    answer.Http? && answer.status == 308 && answer.range.UpTo? ==> answer.range.end + 1 <= held
  }

  predicate SaysFinished(answer: Answer) {
    answer.Http? && (answer.status == 200 || answer.status == 201)
  }

  /** One turn of a session that loses nothing: it keeps what it held and may take any more of the
      chunk's bytes; it never reports more than it then holds, and says it is finished, naming its file,
      only when it holds everything. Of a chunk that starts past what it holds it may make anything. */
  ghost predicate HonestTurn(turn: Turn, staged: seq<Byte>, before: seq<Byte>, put: Put, after: seq<Byte>, id: string) {
    && before <= after && |after| <= |staged|
    && (put.start <= |before| ==>
          forall k :: |before| <= k < |after| ==> k <= put.last && after[k] == staged[k])
    && Reports(turn.chunk, |after|) && Reports(turn.progress, |after|)
    && (SaysFinished(turn.chunk) ==> |after| == |staged| && (turn.chunk.body.FileId? ==> turn.chunk.body.id == id))
  }

  /** `held(k)` is what the session holds as turn `k` begins, and `id` the file it would make. */
  ghost predicate Honest(server: Server, staged: seq<Byte>, held: nat -> seq<Byte>, id: string, i: nat, puts: seq<Put>) {
    forall k :: 0 <= k < |puts| ==> HonestTurn(server(i + k), staged, held(i + k), puts[k], held(i + k + 1), id)
  }

  ghost predicate NoChunkPastHeld(held: nat -> seq<Byte>, i: nat, puts: seq<Put>) {
    forall k :: 0 <= k < |puts| ==> puts[k].start <= |held(i + k)|
  }

  ghost predicate AlwaysPrefix(held: nat -> seq<Byte>, staged: seq<Byte>, i: nat, j: nat) {
    forall t: nat :: i <= t <= j ==> held(t) <= staged
  }

  lemma HonestTurnKeepsPrefix(turn: Turn, staged: seq<Byte>, before: seq<Byte>, put: Put, after: seq<Byte>, id: string)
    requires HonestTurn(turn, staged, before, put, after, id) && before <= staged && put.start <= |before|
    ensures after <= staged
  {
    forall k | 0 <= k < |after|
      ensures after[k] == staged[k]
    {
      if k < |before| {
        assert after[k] == before[k] == staged[k];
      }
    }
  }

  lemma NextOffsetIsHeld(turn: Turn, staged: seq<Byte>, before: seq<Byte>, put: Put, after: seq<Byte>, id: string,
                         sent: nat, budget: nat)
    requires sent <= |staged| && sent <= |before| && HonestTurn(turn, staged, before, put, after, id)
    ensures var v := Decide(turn, |staged|, sent, budget);
            && (v.Advance? ==> v.sent <= |after|) && (v.Retry? ==> v.sent <= |after|)
            && (v.Finish? && v.result.Ok? ==> |after| == |staged| && v.result.id == id)
  {
    assert |before| <= |after|;
    assert Reports(turn.chunk, |after|) && Reports(turn.progress, |after|);
    ReportedAtMostHeld(turn.chunk, |staged|, |after|);
    ReportedAtMostHeld(turn.progress, |staged|, |after|);
    assert SaysFinished(turn.chunk) ==> |after| == |staged|;
  }

  lemma ReportedAtMostHeld(answer: Answer, total: nat, held: nat)
    requires Reports(answer, held)
    ensures answer.Http? && answer.status == 308 && StoredBytes(answer.range, total).Some? ==>
              StoredBytes(answer.range, total).value <= held
  {
  }

  /** No chunk starts past what the session holds, what it holds is always the object's own beginning,
      and a result that reports a file means that the session holds the whole object. */
  ghost predicate Delivered(held: nat -> seq<Byte>, staged: seq<Byte>, id: string, i: nat, puts: seq<Put>, result: Result) {
    && NoChunkPastHeld(held, i, puts)
    && AlwaysPrefix(held, staged, i, i + |puts|)
    && (result.Ok? ==> puts != [] && held(i + |puts|) == staged && result.id == id)
  }

  /** The loop delivers, against every server whose session loses nothing. */
  lemma {:induction false} HonestLoop(server: Server, deadline: int, staged: seq<Byte>, held: nat -> seq<Byte>,
                                      id: string, i: nat, sent: nat, budget: nat)
    requires sent <= |staged| && sent <= |held(i)| && held(i) <= staged
    requires Honest(server, staged, held, id, i, Loop(server, deadline, |staged|, i, sent, budget).0)
    ensures var (puts, result) := Loop(server, deadline, |staged|, i, sent, budget);
            Delivered(held, staged, id, i, puts, result)
    decreases budget, |staged| - sent
  {
    var (puts, result) := Loop(server, deadline, |staged|, i, sent, budget);
    if puts != [] {
      FirstTurn(server, staged, held, id, i, puts);
      HonestTurnKeepsPrefix(server(i), staged, held(i), puts[0], held(i + 1), id);
      NextOffsetIsHeld(server(i), staged, held(i), puts[0], held(i + 1), id, sent, budget);
      var v := Decide(server(i), |staged|, sent, budget);
      if v.Finish? {
        assert puts[1..] == [];
        DeliveredBack(held, staged, id, i, puts, result);
      } else {
        var budget' := if v.Retry? then budget - 1 else budget;
        assert puts[1..] == Loop(server, deadline, |staged|, i + 1, v.sent, budget').0;
        HonestRest(server, staged, held, id, i, puts);
        HonestLoop(server, deadline, staged, held, id, i + 1, v.sent, budget');
        DeliveredBack(held, staged, id, i, puts, result);
      }
    }
  }

  lemma DeliveredBack(held: nat -> seq<Byte>, staged: seq<Byte>, id: string, i: nat, puts: seq<Put>, result: Result)
    requires puts != [] && puts[0].start <= |held(i)| && held(i) <= staged && held(i + 1) <= staged
    requires NoChunkPastHeld(held, i + 1, puts[1..]) && AlwaysPrefix(held, staged, i + 1, i + 1 + |puts[1..]|)
    requires result.Ok? ==> held(i + 1 + |puts[1..]|) == staged && result.id == id
    ensures Delivered(held, staged, id, i, puts, result)
  {
    ShiftBack(held, i, puts);
    assert i + 1 + |puts[1..]| == i + |puts|;
  }

  lemma FirstTurn(server: Server, staged: seq<Byte>, held: nat -> seq<Byte>, id: string, i: nat, puts: seq<Put>)
    requires puts != [] && Honest(server, staged, held, id, i, puts)
    ensures HonestTurn(server(i), staged, held(i), puts[0], held(i + 1), id)
  {
    assert HonestTurn(server(i + 0), staged, held(i + 0), puts[0], held(i + 0 + 1), id);
  }

  lemma HonestRest(server: Server, staged: seq<Byte>, held: nat -> seq<Byte>, id: string, i: nat, puts: seq<Put>)
    requires puts != [] && Honest(server, staged, held, id, i, puts)
    ensures Honest(server, staged, held, id, i + 1, puts[1..])
  {
    forall k | 0 <= k < |puts[1..]|
      ensures HonestTurn(server(i + 1 + k), staged, held(i + 1 + k), puts[1..][k], held(i + 1 + k + 1), id)
    {
      assert HonestTurn(server(i + (k + 1)), staged, held(i + (k + 1)), puts[k + 1], held(i + (k + 1) + 1), id);
    }
  }

  lemma ShiftBack(held: nat -> seq<Byte>, i: nat, puts: seq<Put>)
    requires puts != [] && puts[0].start <= |held(i)| && NoChunkPastHeld(held, i + 1, puts[1..])
    ensures NoChunkPastHeld(held, i, puts)
  {
    forall k | 0 <= k < |puts|
      ensures puts[k].start <= |held(i + k)|
    {
      if k > 0 {
        assert puts[1..][k - 1].start <= |held(i + 1 + (k - 1))|;
        assert i + 1 + (k - 1) == i + k;
      }
    }
  }

  // ----- one recording, many attempts -----

  /** A file in the drive that carries the recording's id. */
  datatype File = File(id: string, content: seq<Byte>)

  /** One attempt's surroundings: whether the duplicate search and the calls before the loop work, the
      server, the time the loop starts, what its session holds turn by turn, and the id of the file that
      session would make. */
  datatype Attempt = Attempt(searchWorks: bool, setupWorks: bool, server: Server, started: int,
                             held: nat -> seq<Byte>, id: string)

  datatype Outcome = Found(id: string) | Uploaded(result: Result) | GaveUp

  function AttemptLoop(a: Attempt, total: nat): (seq<Put>, Result) {
    Loop(a.server, a.started + TRANSFER_DEADLINE_SECONDS, total, 0, 0, UPLOAD_RETRY_BUDGET)
  }

  ghost predicate HonestAttempt(a: Attempt, staged: seq<Byte>) {
    a.held(0) == [] && Honest(a.server, staged, a.held, a.id, 0, AttemptLoop(a, |staged|).0)
  }

  /** After the attempt's `k`-th chunk its session holds as many bytes as the object has. */
  ghost predicate FullAt(a: Attempt, staged: seq<Byte>, k: nat) {
    0 < k <= |AttemptLoop(a, |staged|).0| && |a.held(k)| == |staged|
  }

  ghost predicate Fills(a: Attempt, staged: seq<Byte>) {
    exists k: nat :: FullAt(a, staged, k)
  }

  /** The files the attempt's session leaves: one, of what it holds, once a chunk fills it, whether or
      not the answer to that chunk arrives. */
  ghost function Made(a: Attempt, staged: seq<Byte>): seq<File> {
    if Fills(a, staged) then
      var k: nat :| FullAt(a, staged, k);
      [File(a.id, a.held(k))]
    else []
  }

  /** The duplicate search comes first, and answers for the first file it finds. */
  ghost function Run(files: seq<File>, a: Attempt, staged: seq<Byte>): (seq<File>, Outcome) {
    if !a.searchWorks then (files, GaveUp)
    else if files != [] then (files, Found(files[0].id))
    else if !a.setupWorks then (files, GaveUp)
    else (files + Made(a, staged), Uploaded(AttemptLoop(a, |staged|).1))
  }

  ghost function FilesAfter(attempts: seq<Attempt>, staged: seq<Byte>): seq<File> {
    if attempts == [] then []
    else Run(FilesAfter(attempts[..|attempts| - 1], staged), attempts[|attempts| - 1], staged).0
  }

  /** The file an attempt reports as delivered. */
  function Claim(o: Outcome): Option<string> {
    match o
    case Found(id) => Some(id)
    case Uploaded(Ok(id)) => Some(id)
    case _ => None
  }

  /** Whatever an attempt's session makes is the object, and a finished answer names it. */
  lemma MadeIsTheObject(a: Attempt, staged: seq<Byte>)
    requires HonestAttempt(a, staged)
    ensures Made(a, staged) == if Fills(a, staged) then [File(a.id, staged)] else []
    ensures AttemptLoop(a, |staged|).1.Ok? ==> Fills(a, staged) && AttemptLoop(a, |staged|).1.id == a.id
    ensures NoChunkPastHeld(a.held, 0, AttemptLoop(a, |staged|).0)
  {
    var (puts, result) := AttemptLoop(a, |staged|);
    HonestLoop(a.server, a.started + TRANSFER_DEADLINE_SECONDS, staged, a.held, a.id, 0, 0, UPLOAD_RETRY_BUDGET);
    forall k: nat | FullAt(a, staged, k)
      ensures a.held(k) == staged
    {
      assert a.held(k) <= staged;
    }
    if result.Ok? {
      assert FullAt(a, staged, |puts|);
    }
  }

  /** An attempt that fills its session and never learns of it is answered for by the next search: the
      file found is the object. */
  lemma LostAnswerIsFound(a: Attempt, b: Attempt, staged: seq<Byte>)
    requires HonestAttempt(a, staged) && Fills(a, staged)
    requires a.searchWorks && a.setupWorks && b.searchWorks
    ensures Run([], a, staged).0 == [File(a.id, staged)]
    ensures Run(Run([], a, staged).0, b, staged) == ([File(a.id, staged)], Found(a.id))
  {
    MadeIsTheObject(a, staged);
  }

  /** At most one file, and it is the object. */
  ghost predicate OneCopy(files: seq<File>, staged: seq<Byte>) {
    files == [] || (|files| == 1 && files[0].content == staged)
  }

  lemma RunKeepsOneCopy(files: seq<File>, a: Attempt, staged: seq<Byte>)
    requires OneCopy(files, staged) && HonestAttempt(a, staged)
    ensures var (files', outcome) := Run(files, a, staged);
            && OneCopy(files', staged) && files <= files'
            && (Claim(outcome).Some? ==> files' == [File(Claim(outcome).value, staged)])
            && (outcome.Uploaded? ==> a.searchWorks && a.setupWorks && files == [])
            && (outcome.Found? ==> a.searchWorks) && (!outcome.Uploaded? ==> files' == files)
  {
    MadeIsTheObject(a, staged);
  }

  ghost function OutcomeOf(attempts: seq<Attempt>, staged: seq<Byte>, k: nat): Outcome
    requires k < |attempts|
  {
    Run(FilesAfter(attempts[..k], staged), attempts[k], staged).1
  }

  lemma {:induction false} FilesGrow(attempts: seq<Attempt>, staged: seq<Byte>, k: nat)
    requires k <= |attempts| && forall j :: 0 <= j < |attempts| ==> HonestAttempt(attempts[j], staged)
    ensures OneCopy(FilesAfter(attempts, staged), staged)
    ensures FilesAfter(attempts[..k], staged) <= FilesAfter(attempts, staged)
    decreases |attempts|
  {
    if attempts != [] {
      var front, last := attempts[..|attempts| - 1], attempts[|attempts| - 1];
      FilesGrow(front, staged, if k < |attempts| then k else 0);
      RunKeepsOneCopy(FilesAfter(front, staged), last, staged);
      if k < |attempts| {
        assert front[..k] == attempts[..k];
      } else {
        assert attempts[..k] == attempts;
      }
    }
  }

  /** Over any sequence of attempts on sessions that lose nothing: the recording has at most one file, it
      is the staged object, it never changes once it exists, and every attempt that reports a delivery,
      found or uploaded, reports that file. */
  lemma OneFileAndItIsTheObject(attempts: seq<Attempt>, staged: seq<Byte>, k: nat)
    requires k < |attempts| && forall j :: 0 <= j < |attempts| ==> HonestAttempt(attempts[j], staged)
    ensures OneCopy(FilesAfter(attempts, staged), staged)
    ensures FilesAfter(attempts[..k], staged) <= FilesAfter(attempts, staged)
    ensures var claim := Claim(OutcomeOf(attempts, staged, k));
            claim.Some? ==> FilesAfter(attempts, staged) == [File(claim.value, staged)]
  {
    var before, upTo := attempts[..k], attempts[..k + 1];
    assert upTo[..k] == before && upTo[k] == attempts[k];
    FilesGrow(attempts, staged, k);
    FilesGrow(attempts, staged, k + 1);
    FilesGrow(before, staged, 0);
    RunKeepsOneCopy(FilesAfter(before, staged), attempts[k], staged);
    assert FilesAfter(upTo, staged) == Run(FilesAfter(before, staged), attempts[k], staged).0;
  }
}
