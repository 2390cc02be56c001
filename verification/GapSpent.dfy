/** Why the rows of a spent attempt cannot be reached
    (docs/turn-timing.md, 402-405; scripts/check-gap-state.py, 353-360). */
module GapSpent {
  import opened GapTable
  import opened GapHistory

  /** From a request in flight or committed, a row goes back to waiting only with an attempt left, or by
      starting the episode over; and an episode has an attempt to begin with. */
  ghost predicate SpendingEndsTheGap(t: Table) {
    && t.episodeAttempts > 0
    && forall k :: 0 <= k < |t.rows| ==> ReturnsWithAttempt(t.rows[k])
  }

  ghost predicate ReturnsWithAttempt(row: Row) {
    (row.state == Sending || row.state == Requested) && (row.next == Open || row.next == Due) ==>
      || (AttemptsLeft in row.guards && row.guards[AttemptsLeft])
      || OpenGap in row.actions || ReopenGap in row.actions
  }

  /** A waiting episode has an attempt left, and between episodes none is spent. */
  ghost predicate Unspent(t: Table, history: seq<Entry>) {
    var s, spent := StateAfter(history), SendsThisEpisode(Flat(history));
    && (s == Open || s == Due ==> spent < t.episodeAttempts)
    && (s == Clear ==> spent == 0)
  }

  lemma SendsNext(past: seq<Action>, a: Action)
    requires a != SendRequest
    ensures SendsThisEpisode(past + [a]) == if Restarts(a) || Closes(a) then 0 else SendsThisEpisode(past)
  {
    assert (past + [a])[..|past|] == past;
  }

  /** Without a send, actions leave the count alone or start it over, as some action does. */
  lemma {:induction false} SendsAfter(past: seq<Action>, actions: seq<Action>)
    requires SendRequest !in actions
    ensures SendsThisEpisode(past + actions) == SendsThisEpisode(past) || SendsThisEpisode(past + actions) == 0
    ensures (exists a <- actions :: Restarts(a) || Closes(a)) ==> SendsThisEpisode(past + actions) == 0
    decreases |actions|
  {
    if actions == [] {
      assert past + actions == past;
    } else {
      var front, last := actions[..|actions| - 1], actions[|actions| - 1];
      assert actions == front + [last] && past + actions == past + front + [last];
      SendsAfter(past, front);
      SendsNext(past + front, last);
    }
  }

  /** A debt is lifted only by an action that closes the gap. */
  lemma {:induction false} OwedUntilClosed(past: seq<Action>, actions: seq<Action>)
    requires Owed(past) && forall a <- actions :: !Closes(a)
    ensures Owed(past + actions)
    decreases |actions|
  {
    if actions == [] {
      assert past + actions == past;
    } else {
      var front, last := actions[..|actions| - 1], actions[|actions| - 1];
      assert actions == front + [last] && past + actions == past + front + [last];
      OwedUntilClosed(past, front);
      TallyGrows(past + front, last);
    }
  }

  lemma UnspentNext(t: Table, run: seq<Input>, m: MState, i: Input, k: nat, history: seq<Entry>)
    requires SpendingEndsTheGap(t) && ReadOff(run, m) && Sound(t, m) && Unspent(t, m.history)
    requires Fits(t, run, m.history, i, k) && MayFire(t, run, m.history, i, t.rows[k])
    requires history == m.history + [EntryOf(m.history, i, t.rows[k])]
    ensures Unspent(t, history)
  {
    var row, past := t.rows[k], Flat(m.history);
    assert history[..|m.history|] == m.history;
    assert Flat(history) == past + row.actions && StateAfter(history) == row.next;
    if row.next == Open || row.next == Due || row.next == Clear {
      assert SendRequest !in row.actions;
      SendsAfter(past, row.actions);
      assert ReturnsWithAttempt(row);
      if row.next == Clear {
        if row.state != Clear && forall a <- row.actions :: !Closes(a) {
          OwedUntilClosed(past, row.actions);
        }
      } else if row.state == Sending || row.state == Requested {
        if AttemptsLeft in row.guards && row.guards[AttemptsLeft] {
          assert Reads(t, run, past, i, AttemptsLeft);
        } else {
          assert exists a <- row.actions :: Restarts(a) by {
            assert OpenGap in row.actions ==> Restarts(OpenGap);
            assert ReopenGap in row.actions ==> Restarts(ReopenGap);
          }
        }
      }
    }
  }

  lemma {:induction false} RunsAreUnspent(t: Table, run: seq<Input>)
    requires SpendingEndsTheGap(t) && Run(t, run).Completed?
    ensures Unspent(t, Run(t, run).m.history)
    decreases |run|
  {
    if run != [] {
      var front, i := run[..|run| - 1], run[|run| - 1];
      assert front + [i] == run;
      RunsAreUnspent(t, front);
      FieldsAreReadOff(t, front);
      CompletedRunIsSafe(t, front);
      RunGoesOnExactly(t, front, i);
      var m := Run(t, front).m;
      var k: nat :| OnlyFits(t, front, m.history, i, k) && MayFire(t, front, m.history, i, t.rows[k]);
      UnspentNext(t, front, m, i, k, Run(t, run).m.history);
    }
  }

  /** In every such table, a row that asks for a spent attempt while the machine waits or is clear fits
      after no completed run. */
  lemma SpentRowsAreDead(t: Table, run: seq<Input>, i: Input, k: nat)
    requires SpendingEndsTheGap(t) && Run(t, run).Completed?
    requires k < |t.rows| && AttemptsLeft in t.rows[k].guards && !t.rows[k].guards[AttemptsLeft]
    requires t.rows[k].state == Clear || t.rows[k].state == Open || t.rows[k].state == Due
    ensures !Fits(t, run, Run(t, run).m.history, i, k)
  {
    var history := Run(t, run).m.history;
    RunsAreUnspent(t, run);
    assert StateAfter(history) == t.rows[k].state ==> Reads(t, run, Flat(history), i, AttemptsLeft);
  }
}
