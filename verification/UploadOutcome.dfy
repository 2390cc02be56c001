/** How an upload ends, by what the server did, and when it succeeds
    (src/delivery.rs, 32-56, 449-462, 580-672 and 772-797). */
module UploadOutcome {
  import opened Upload
  import opened Wrappers

  const CHUNK: nat := 8388608

  // ----- one turn, as the protocol reads it -----

  /** No answer, or one that says to try again. */
  predicate Transient(answer: Answer) {
    answer.NoAnswer?
    || answer.status == 429 || answer.status == 500 || answer.status == 502 || answer.status == 503 || answer.status == 504
  }

  predicate Says308(answer: Answer) {
    answer.Http? && answer.status == 308
  }

  /** The answer reports `n` of `total` bytes held. */
  ghost predicate Holds(answer: Answer, total: nat, n: nat) {
    && Says308(answer) && n <= total && n <= U64_MAX
    && (if answer.range == NoRange then n == 0 else answer.range.UpTo? && n == answer.range.end + 1)
  }

  ghost predicate Unusable(answer: Answer, total: nat) {
    Says308(answer) && forall n: nat :: !Holds(answer, total, n)
  }

  /** The turn can put a chunk. */
  ghost predicate Able(turn: Turn, deadline: int) {
    turn.now < deadline && turn.token && turn.bytes
  }

  /** A turn that spends a retry: nothing usable came back, or the session reports nothing new. */
  ghost predicate Costs(turn: Turn, total: nat, start: nat) {
    Transient(turn.chunk) || Holds(turn.chunk, total, 0)
    || (Says308(turn.chunk) && turn.chunk.range.UpTo? && Holds(turn.chunk, total, turn.chunk.range.end + 1)
        && turn.chunk.range.end < start)
  }

  /** Where the next chunk starts, for a chunk that started at `start`. */
  ghost predicate Moves(turn: Turn, total: nat, start: nat, next: nat) {
    if Transient(turn.chunk) then Holds(turn.progress, total, next)
    else (Holds(turn.chunk, total, next) && next > start) || (Costs(turn, total, start) && next == start)
  }

  ghost predicate IsChunk(put: Put, total: nat) {
    && put.start < total
    && put.last == if put.start + CHUNK < total then put.start + CHUNK - 1 else total - 1
  }

  // ----- every server -----

  /** How many of the chunks spent a retry. */
  ghost function Spent(server: Server, total: nat, i: nat, puts: seq<Put>): nat
    decreases |puts|
  {
    if puts == [] then 0
    else (if Costs(server(i), total, puts[0].start) then 1 else 0) + Spent(server, total, i + 1, puts[1..])
  }

  /** What the last turn must have been for the transfer to end as it did. */
  ghost predicate EndedBy(turn: Turn, total: nat, start: nat, result: Result) {
    match result
    case Ok(id) => SaysFinished(turn.chunk) && turn.chunk.body == FileId(id)
    case Err(BadBody) => SaysFinished(turn.chunk) && !turn.chunk.body.FileId?
    case Err(Refused) => !Transient(turn.chunk) && !SaysFinished(turn.chunk) && !Says308(turn.chunk)
    case Err(BadRange) =>
      Unusable(turn.chunk, total) || (Transient(turn.chunk) && Unusable(turn.progress, total))
    case Err(NoProgress) => !Transient(turn.chunk) && Costs(turn, total, start)
    case Err(OutOfRetries) => Transient(turn.chunk)
    case Err(NoProgressAnswer) => Transient(turn.chunk) && turn.progress.NoAnswer?
    case Err(SessionGone) => Transient(turn.chunk) && turn.progress.Http? && turn.progress.status != 308
    case Err(Unanswered) => Moves(turn, total, start, total)
    case _ => false
  }

  /** What the turn that put no chunk must have been. */
  ghost predicate StoppedBy(turn: Turn, deadline: int, result: Result) {
    match result
    case Err(PastDeadline) => turn.now >= deadline
    case Err(NoToken) => turn.now < deadline && !turn.token
    case Err(NoObject) => turn.now < deadline && turn.token && !turn.bytes
    case _ => false
  }

  ghost predicate Chunks(server: Server, deadline: int, total: nat, i: nat, puts: seq<Put>) {
    forall k :: 0 <= k < |puts| ==> Able(server(i + k), deadline) && IsChunk(puts[k], total)
  }

  ghost predicate Follows(server: Server, total: nat, i: nat, puts: seq<Put>) {
    forall k :: 0 <= k < |puts| - 1 ==> Moves(server(i + k), total, puts[k].start, puts[k + 1].start)
  }

  /** A turn that spends a retry after the last of them ends the transfer. */
  ghost predicate InBudget(spent: nat, budget: nat, result: Result) {
    if result == Err(OutOfRetries) || result == Err(NoProgress) then spent == budget + 1 else spent <= budget
  }

  ghost predicate EndsRightly(server: Server, deadline: int, total: nat, i: nat, sent: nat, puts: seq<Put>, result: Result) {
    || (sent == total && puts == [] && result == Err(Unanswered))
    || StoppedBy(server(i + |puts|), deadline, result)
    || (puts != [] && EndedBy(server(i + |puts| - 1), total, puts[|puts| - 1].start, result))
  }

  /** Everything a transfer did. */
  ghost predicate Accounted(server: Server, deadline: int, total: nat, i: nat, sent: nat, budget: nat,
                            puts: seq<Put>, result: Result)
  {
    && Chunks(server, deadline, total, i, puts) && Follows(server, total, i, puts)
    && (puts != [] ==> puts[0].start == sent)
    && InBudget(Spent(server, total, i, puts), budget, result)
    && EndsRightly(server, deadline, total, i, sent, puts, result)
  }

  lemma StoredIsHeld(answer: Answer, total: nat, n: nat)
    requires Says308(answer)
    ensures StoredBytes(answer.range, total) == Some(n) <==> Holds(answer, total, n)
    ensures StoredBytes(answer.range, total) == None ==> Unusable(answer, total)
  {
  }

  lemma FailureIsRead(turn: Turn, total: nat, start: nat, budget: nat)
    requires Transient(turn.chunk)
    ensures match AfterFailure(turn, total, budget)
            case Finish(result) =>
              && EndedBy(turn, total, start, result) && result != Err(Unanswered)
              && (if result == Err(OutOfRetries) then budget == 0 else budget > 0 && result != Err(NoProgress))
            case Retry(next) => budget > 0 && Moves(turn, total, start, next)
            case Advance(_) => false
  {
    if budget > 0 && Says308(turn.progress) {
      match StoredBytes(turn.progress.range, total)
      case None => StoredIsHeld(turn.progress, total, 0);
      case Some(n) => StoredIsHeld(turn.progress, total, n);
    }
  }

  /** One turn's decision, by what the turn was. */
  ghost predicate Judged(turn: Turn, total: nat, start: nat, budget: nat, v: Verdict) {
    match v
    case Finish(result) =>
      && EndedBy(turn, total, start, result) && result != Err(Unanswered)
      && InBudget(if Costs(turn, total, start) then 1 else 0, budget, result)
    case Advance(next) => !Costs(turn, total, start) && Moves(turn, total, start, next)
    case Retry(next) => budget > 0 && Costs(turn, total, start) && Moves(turn, total, start, next)
  }

  lemma TurnIsJudged(turn: Turn, total: nat, sent: nat, budget: nat)
    requires sent <= total
    ensures Judged(turn, total, sent, budget, Decide(turn, total, sent, budget))
  {
    if Transient(turn.chunk) {
      FailureIsRead(turn, total, sent, budget);
    } else if Says308(turn.chunk) {
      match StoredBytes(turn.chunk.range, total)
      case None => StoredIsHeld(turn.chunk, total, 0);
      case Some(n) =>
        StoredIsHeld(turn.chunk, total, n);
        assert forall other: nat :: Holds(turn.chunk, total, other) ==> other == n;
    }
  }

  lemma ChunkIsChunk(sent: nat, total: nat)
    requires sent < total
    ensures IsChunk(ChunkAt(sent, total), total) && ChunkAt(sent, total).start == sent
  {
  }

  lemma ChunksGrow(server: Server, deadline: int, total: nat, i: nat, put: Put, next: nat, rest: seq<Put>)
    requires Able(server(i), deadline) && IsChunk(put, total) && Moves(server(i), total, put.start, next)
    requires Chunks(server, deadline, total, i + 1, rest) && Follows(server, total, i + 1, rest)
    requires rest != [] ==> rest[0].start == next
    ensures Chunks(server, deadline, total, i, [put] + rest) && Follows(server, total, i, [put] + rest)
  {
    var puts := [put] + rest;
    forall k | 0 <= k < |puts|
      ensures Able(server(i + k), deadline) && IsChunk(puts[k], total)
    {
      if k > 0 {
        assert i + k == i + 1 + (k - 1) && puts[k] == rest[k - 1];
      }
    }
    forall k | 0 <= k < |puts| - 1
      ensures Moves(server(i + k), total, puts[k].start, puts[k + 1].start)
    {
      if k > 0 {
        assert i + k == i + 1 + (k - 1) && puts[k] == rest[k - 1] && puts[k + 1] == rest[k];
      }
    }
  }

  lemma EndStays(server: Server, deadline: int, total: nat, i: nat, put: Put, next: nat, rest: seq<Put>, result: Result)
    requires Moves(server(i), total, put.start, next)
    requires EndsRightly(server, deadline, total, i + 1, next, rest, result)
    ensures EndsRightly(server, deadline, total, i, put.start, [put] + rest, result)
  {
    var puts := [put] + rest;
    assert i + |puts| == i + 1 + |rest|;
    if rest != [] {
      assert puts[|puts| - 1] == rest[|rest| - 1];
    }
  }

  /** A transfer that goes on after one chunk. */
  lemma AccountGrows(server: Server, deadline: int, total: nat, i: nat, put: Put, budget: nat, next: nat,
                     budget': nat, rest: seq<Put>, result: Result)
    requires Able(server(i), deadline) && IsChunk(put, total) && Moves(server(i), total, put.start, next)
    requires budget' == budget - if Costs(server(i), total, put.start) then 1 else 0
    requires Accounted(server, deadline, total, i + 1, next, budget', rest, result)
    ensures Accounted(server, deadline, total, i, put.start, budget, [put] + rest, result)
  {
    hide Moves, Able, IsChunk, Costs, Chunks, Follows, EndsRightly;
    assert ([put] + rest)[1..] == rest;
    ChunksGrow(server, deadline, total, i, put, next, rest);
    EndStays(server, deadline, total, i, put, next, rest, result);
  }

  lemma LastIsAccounted(server: Server, deadline: int, total: nat, i: nat, put: Put, budget: nat, result: Result)
    requires Able(server(i), deadline) && IsChunk(put, total)
    requires Judged(server(i), total, put.start, budget, Finish(result))
    ensures Accounted(server, deadline, total, i, put.start, budget, [put], result)
  {
    assert [put][1..] == [];
    assert i + |[put]| - 1 == i;
  }

  lemma NothingPut(server: Server, deadline: int, total: nat, i: nat, sent: nat, budget: nat, result: Result)
    requires if sent == total then result == Err(Unanswered) else StoppedBy(server(i), deadline, result)
    ensures Accounted(server, deadline, total, i, sent, budget, [], result)
  {
    var none: seq<Put> := [];
    assert i + |none| == i;
  }

  /** Against every server: no chunk is put past the deadline, or without the token and the bytes; each
      starts where the turn before says; at most `budget` turns spend a retry, and one more ends the
      transfer; and the result is the one its last turn calls for. */
  lemma {:induction false} LoopIsAccounted(server: Server, deadline: int, total: nat, i: nat, sent: nat, budget: nat)
    requires sent <= total
    ensures var (puts, result) := Loop(server, deadline, total, i, sent, budget);
            Accounted(server, deadline, total, i, sent, budget, puts, result)
    decreases budget, total - sent
  {
    hide Accounted, Decide, IsChunk, Moves, Costs;
    var turn := server(i);
    if sent < total && Able(turn, deadline) {
      var put := ChunkAt(sent, total);
      var v := Decide(turn, total, sent, budget);
      ChunkIsChunk(sent, total);
      TurnIsJudged(turn, total, sent, budget);
      match v
      case Finish(result) => LastIsAccounted(server, deadline, total, i, put, budget, result);
      case Advance(next) =>
        LoopIsAccounted(server, deadline, total, i + 1, next, budget);
        var (rest, result) := Loop(server, deadline, total, i + 1, next, budget);
        AccountGrows(server, deadline, total, i, put, budget, next, budget, rest, result);
      case Retry(next) =>
        LoopIsAccounted(server, deadline, total, i + 1, next, budget - 1);
        var (rest, result) := Loop(server, deadline, total, i + 1, next, budget - 1);
        AccountGrows(server, deadline, total, i, put, budget, next, budget - 1, rest, result);
    } else {
      NothingPut(server, deadline, total, i, sent, budget, Loop(server, deadline, total, i, sent, budget).1);
    }
  }

  // ----- a session that answers -----

  /** The session takes the chunk, or part of it, and says so; with the whole object it names its file. */
  ghost predicate Takes(turn: Turn, total: nat, before: nat, after: nat, id: string) {
    && before < after <= total && after <= before + CHUNK
    && if after == total then SaysFinished(turn.chunk) && turn.chunk.body == FileId(id)
       else Says308(turn.chunk) && turn.chunk.range == UpTo(after - 1)
  }

  /** No answer, or one to try again, and the session then reports what it holds; or it reports nothing
      new. It does not hold the whole object. */
  ghost predicate Falters(turn: Turn, total: nat, before: nat, after: nat) {
    after < total && after <= before + CHUNK && Costs(turn, total, before) && Moves(turn, total, before, after)
  }

  /** From turn `i` on, until it holds everything, the session takes what it is sent or falters.
      `held(k)` is how much it holds as turn `k` begins. */
  ghost predicate Serves(server: Server, deadline: int, total: nat, held: nat -> nat, id: string, i: nat) {
    forall k: nat :: i <= k && held(k) < total ==> ServesTurn(server(k), deadline, total, held(k), held(k + 1), id)
  }

  ghost predicate ServesTurn(turn: Turn, deadline: int, total: nat, before: nat, after: nat, id: string) {
    Able(turn, deadline) && (Takes(turn, total, before, after, id) || Falters(turn, total, before, after))
  }

  /** How often it falters in `n` turns. */
  ghost function Faltered(server: Server, total: nat, held: nat -> nat, i: nat, n: nat): nat
    decreases n
  {
    if n == 0 then 0
    else (if Falters(server(i), total, held(i), held(i + 1)) then 1 else 0) + Faltered(server, total, held, i + 1, n - 1)
  }

  ghost predicate PartialFor(held: nat -> nat, total: nat, i: nat, n: nat) {
    forall k: nat :: i <= k < i + n ==> held(k) < total
  }

  /** After `n` turns, and no sooner, the session holds the whole object. */
  ghost predicate FillsAfter(held: nat -> nat, total: nat, i: nat, n: nat) {
    PartialFor(held, total, i, n) && held(i + n) == total
  }

  ghost predicate StartsAtHeld(held: nat -> nat, i: nat, puts: seq<Put>) {
    forall k :: 0 <= k < |puts| ==> puts[k].start == held(i + k)
  }

  /** How the transfer fares: it reports the file once the session is full, or the first turn to falter
      past the budget ends it. */
  ghost predicate Fares(server: Server, total: nat, held: nat -> nat, id: string, i: nat, budget: nat,
                        puts: seq<Put>, result: Result)
  {
    && puts != [] && StartsAtHeld(held, i, puts)
    && if result.Ok?
       then
         && result.id == id && FillsAfter(held, total, i, |puts|)
         && Faltered(server, total, held, i, |puts|) <= budget
       else
         && (result == Err(OutOfRetries) || result == Err(NoProgress))
         && PartialFor(held, total, i, |puts| + 1) && Faltered(server, total, held, i, |puts|) == budget + 1
  }

  lemma TakesIsNoFault(turn: Turn, total: nat, before: nat, after: nat, id: string)
    requires total <= U64_MAX && Takes(turn, total, before, after, id)
    ensures !Costs(turn, total, before) && !Falters(turn, total, before, after)
    ensures after < total ==> forall budget: nat :: Decide(turn, total, before, budget) == Advance(after)
    ensures after == total ==> forall budget: nat :: Decide(turn, total, before, budget) == Finish(Ok(id))
  {
  }

  lemma FaltersIsFault(turn: Turn, total: nat, before: nat, after: nat, budget: nat)
    requires total <= U64_MAX && before < total && Falters(turn, total, before, after)
    ensures budget > 0 ==> Decide(turn, total, before, budget) == Retry(after)
    ensures budget == 0 ==> Decide(turn, total, before, budget) == Finish(Err(OutOfRetries))
                            || Decide(turn, total, before, budget) == Finish(Err(NoProgress))
  {
    if Transient(turn.chunk) {
      StoredIsHeld(turn.progress, total, after);
    } else if turn.chunk.range.UpTo? {
      StoredIsHeld(turn.chunk, total, turn.chunk.range.end + 1);
    } else {
      StoredIsHeld(turn.chunk, total, 0);
    }
  }

  lemma FaresOn(server: Server, total: nat, held: nat -> nat, id: string, i: nat, put: Put, budget: nat, budget': nat,
                rest: seq<Put>, result: Result)
    requires held(i) < total && put.start == held(i)
    requires budget' == budget - if Falters(server(i), total, held(i), held(i + 1)) then 1 else 0
    requires Fares(server, total, held, id, i + 1, budget', rest, result)
    ensures Fares(server, total, held, id, i, budget, [put] + rest, result)
  {
    hide Falters;
    var puts := [put] + rest;
    forall k | 0 <= k < |puts|
      ensures puts[k].start == held(i + k)
    {
      if k > 0 {
        assert puts[k] == rest[k - 1] && i + k == i + 1 + (k - 1);
      }
    }
    assert i + |puts| == i + 1 + |rest|;
  }

  lemma FaresLast(server: Server, total: nat, held: nat -> nat, id: string, i: nat, put: Put, budget: nat, result: Result)
    requires held(i) < total && put.start == held(i)
    requires if held(i + 1) == total then result == Ok(id) && !Falters(server(i), total, held(i), held(i + 1))
             else
               && held(i + 1) < total && budget == 0 && Falters(server(i), total, held(i), held(i + 1))
               && (result == Err(OutOfRetries) || result == Err(NoProgress))
    ensures Fares(server, total, held, id, i, budget, [put], result)
  {
    hide Falters;
    assert Faltered(server, total, held, i + 1, 0) == 0;
    assert Faltered(server, total, held, i, 1) == if Falters(server(i), total, held(i), held(i + 1)) then 1 else 0;
  }

  lemma {:induction false} LoopFares(server: Server, deadline: int, total: nat, held: nat -> nat, id: string, i: nat,
                                     budget: nat)
    requires total <= U64_MAX && held(i) < total && Serves(server, deadline, total, held, id, i)
    ensures var (puts, result) := Loop(server, deadline, total, i, held(i), budget);
            Fares(server, total, held, id, i, budget, puts, result)
    decreases budget, total - held(i)
  {
    hide Fares, Decide, Falters, Takes;
    var turn, put := server(i), ChunkAt(held(i), total);
    assert ServesTurn(turn, deadline, total, held(i), held(i + 1), id);
    if Takes(turn, total, held(i), held(i + 1), id) {
      TakesIsNoFault(turn, total, held(i), held(i + 1), id);
      TakesAdvances(turn, total, held(i), held(i + 1), id);
      if held(i + 1) == total {
        FaresLast(server, total, held, id, i, put, budget, Ok(id));
      } else {
        LoopFares(server, deadline, total, held, id, i + 1, budget);
        var (rest, result) := Loop(server, deadline, total, i + 1, held(i + 1), budget);
        FaresOn(server, total, held, id, i, put, budget, budget, rest, result);
      }
    } else {
      FaltersIsFault(turn, total, held(i), held(i + 1), budget);
      FaltersIsPartial(turn, total, held(i), held(i + 1));
      if budget == 0 {
        FaresLast(server, total, held, id, i, put, budget, Decide(turn, total, held(i), budget).result);
      } else {
        LoopFares(server, deadline, total, held, id, i + 1, budget - 1);
        var (rest, result) := Loop(server, deadline, total, i + 1, held(i + 1), budget - 1);
        FaresOn(server, total, held, id, i, put, budget, budget - 1, rest, result);
      }
    }
  }

  lemma TakesAdvances(turn: Turn, total: nat, before: nat, after: nat, id: string)
    requires Takes(turn, total, before, after, id)
    ensures before < after <= total
  {
  }

  lemma FaltersIsPartial(turn: Turn, total: nat, before: nat, after: nat)
    requires Falters(turn, total, before, after)
    ensures after < total
  {
  }

  lemma {:induction false} FalteredGrows(server: Server, total: nat, held: nat -> nat, i: nat, n: nat, more: nat)
    requires n <= more
    ensures Faltered(server, total, held, i, n) <= Faltered(server, total, held, i, more)
    decreases n
  {
    if n > 0 {
      FalteredGrows(server, total, held, i + 1, n - 1, more - 1);
    }
  }

  /** An upload succeeds exactly when the session comes to hold the whole object before it has faltered
      more often than the budget allows. */
  lemma UploadSucceedsExactly(server: Server, deadline: int, total: nat, held: nat -> nat, id: string, budget: nat)
    requires total <= U64_MAX && held(0) == 0 < total && Serves(server, deadline, total, held, id, 0)
    ensures Loop(server, deadline, total, 0, 0, budget).1.Ok? <==>
              exists n: nat :: FillsAfter(held, total, 0, n) && Faltered(server, total, held, 0, n) <= budget
    ensures Loop(server, deadline, total, 0, 0, budget).1.Ok? ==> Loop(server, deadline, total, 0, 0, budget).1.id == id
  {
    LoopFares(server, deadline, total, held, id, 0, budget);
    var (puts, result) := Loop(server, deadline, total, 0, held(0), budget);
    if n: nat :| FillsAfter(held, total, 0, n) && Faltered(server, total, held, 0, n) <= budget {
      if !result.Ok? {
        assert held(0 + n) == total;
        FalteredGrows(server, total, held, 0, |puts|, n);
      }
    }
  }

  ghost predicate CarriedBy(puts: seq<Put>, b: nat) {
    exists k :: 0 <= k < |puts| && puts[k].start <= b <= puts[k].last
  }

  lemma {:induction false} SomeTurnPasses(held: nat -> nat, i: nat, n: nat, b: nat) returns (k: nat)
    requires held(i) <= b < held(i + n)
    ensures k < n && held(i + k) <= b < held(i + k + 1)
    decreases n
  {
    if held(i + 1) <= b {
      var j := SomeTurnPasses(held, i + 1, n - 1, b);
      k := j + 1;
    } else {
      k := 0;
    }
  }

  /** A successful upload has put every byte of the object. */
  lemma EveryByteIsPut(server: Server, deadline: int, total: nat, held: nat -> nat, id: string, budget: nat, b: nat)
    requires total <= U64_MAX && held(0) == 0 < total && Serves(server, deadline, total, held, id, 0)
    requires Loop(server, deadline, total, 0, 0, budget).1.Ok? && b < total
    ensures CarriedBy(Loop(server, deadline, total, 0, 0, budget).0, b)
  {
    LoopFares(server, deadline, total, held, id, 0, budget);
    LoopIsAccounted(server, deadline, total, 0, 0, budget);
    var puts := Loop(server, deadline, total, 0, 0, budget).0;
    var k := SomeTurnPasses(held, 0, |puts|, b);
    assert held(0 + k) < total;
    assert ServesTurn(server(k), deadline, total, held(k), held(k + 1), id);
    assert IsChunk(puts[k], total);
  }

  /** A session that takes every chunk whole costs no retry, whatever the budget, and the chunks tile
      the object in order. */
  lemma HealthyUploadTiles(server: Server, deadline: int, total: nat, held: nat -> nat, id: string, budget: nat)
    requires total <= U64_MAX && held(0) == 0 < total
    requires forall k: nat :: held(k) < total ==>
               && Able(server(k), deadline) && Takes(server(k), total, held(k), held(k + 1), id)
               && held(k + 1) == if held(k) + CHUNK < total then held(k) + CHUNK else total
    ensures var (puts, result) := Loop(server, deadline, total, 0, 0, budget);
            && result == Ok(id) && puts != [] && (|puts| - 1) * CHUNK < total <= |puts| * CHUNK
            && forall k :: 0 <= k < |puts| ==>
                 puts[k] == Put(k * CHUNK, if (k + 1) * CHUNK < total then (k + 1) * CHUNK - 1 else total - 1)
  {
    LoopFares(server, deadline, total, held, id, 0, budget);
    LoopIsAccounted(server, deadline, total, 0, 0, budget);
    var (puts, result) := Loop(server, deadline, total, 0, held(0), budget);
    NeverFalters(server, deadline, total, held, id, 0, |puts|);
    forall k | 0 <= k < |puts|
      ensures IsChunk(puts[k], total)
    {
    }
    ChunksTile(held, total, puts);
  }

  lemma ChunksTile(held: nat -> nat, total: nat, puts: seq<Put>)
    requires held(0) == 0 < total && puts != [] && FillsAfter(held, total, 0, |puts|)
    requires forall j: nat :: held(j) < total ==> held(j + 1) == if held(j) + CHUNK < total then held(j) + CHUNK else total
    requires StartsAtHeld(held, 0, puts) && forall k :: 0 <= k < |puts| ==> IsChunk(puts[k], total)
    ensures (|puts| - 1) * CHUNK < total <= |puts| * CHUNK
    ensures forall k :: 0 <= k < |puts| ==>
              puts[k] == Put(k * CHUNK, if (k + 1) * CHUNK < total then (k + 1) * CHUNK - 1 else total - 1)
  {
    forall k | 0 <= k < |puts|
      ensures puts[k] == Put(k * CHUNK, if (k + 1) * CHUNK < total then (k + 1) * CHUNK - 1 else total - 1)
    {
      assert held(0 + k) < total;
      HeldInChunks(held, total, k);
    }
    var last := |puts| - 1;
    assert held(0 + last) < total && held(last + 1) == held(0 + |puts|) == total;
    HeldInChunks(held, total, last);
  }

  lemma {:induction false} NeverFalters(server: Server, deadline: int, total: nat, held: nat -> nat, id: string, i: nat, n: nat)
    requires total <= U64_MAX && PartialFor(held, total, i, n)
    requires forall k: nat :: held(k) < total ==> Takes(server(k), total, held(k), held(k + 1), id)
    ensures Faltered(server, total, held, i, n) == 0
    decreases n
  {
    if n > 0 {
      assert held(i) < total;
      TakesIsNoFault(server(i), total, held(i), held(i + 1), id);
      NeverFalters(server, deadline, total, held, id, i + 1, n - 1);
    }
  }

  lemma {:induction false} HeldInChunks(held: nat -> nat, total: nat, k: nat)
    requires held(0) == 0 < total && held(k) < total
    requires forall j: nat :: held(j) < total ==> held(j + 1) == if held(j) + CHUNK < total then held(j) + CHUNK else total
    requires forall j: nat :: j <= k ==> held(j) < total
    ensures held(k) == k * CHUNK
    decreases k
  {
    if k > 0 {
      assert held(k - 1) < total;
      HeldInChunks(held, total, k - 1);
      assert held(k - 1 + 1) == held(k);
    }
  }

  /** A first attempt whose session serves it and loses nothing leaves exactly one file, the object, and
      reports it. */
  lemma ServedAttemptDelivers(a: Attempt, staged: seq<Byte>, n: nat)
    requires a.searchWorks && a.setupWorks && HonestAttempt(a, staged) && 0 < |staged| <= U64_MAX
    requires var held := (k: nat) => |a.held(k)|;
             && Serves(a.server, a.started + 1800, |staged|, held, a.id, 0) && FillsAfter(held, |staged|, 0, n)
             && Faltered(a.server, |staged|, held, 0, n) <= 8
    ensures Upload.Run([], a, staged) == ([File(a.id, staged)], Uploaded(Ok(a.id)))
  {
    var held := (k: nat) => |a.held(k)|;
    UploadSucceedsExactly(a.server, a.started + 1800, |staged|, held, a.id, 8);
    MadeIsTheObject(a, staged);
    var none: seq<File> := [];
    assert AttemptLoop(a, |staged|).1 == Ok(a.id);
    assert none + [File(a.id, staged)] == [File(a.id, staged)];
  }
}
