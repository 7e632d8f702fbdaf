/** What every step of the outbox protocol keeps, whatever the workers, the direct publishers and the clock do. */
module OutboxInvariant {
  import opened Common
  import opened Messages
  import opened Outbox

  /******* The invariant *******/

  ghost predicate RowOk(row: Row) {
    && row.attempts <= MAX_ATTEMPTS
    && (row.status == Processing <==> row.claimedBy.Some?)
    && (row.status == Processing <==> row.claimedAt.Some?)
    && (row.status == Pending ==> row.attempts < MAX_ATTEMPTS)
    && (row.status == Processing ==> 1 <= row.attempts)
    && (row.status == Failed ==> row.attempts == MAX_ATTEMPTS)
  }

  ghost predicate RowsOk(s: Box) {
    && (forall r :: r in s.rows ==> RowOk(s.rows[r]))
    && (forall r, t :: r in s.rows && t in s.rows && s.rows[r].message.Key() == s.rows[t].message.Key() ==> r == t)
  }

  // The earliest moment after attempt number k at which the row may be claimed again.
  ghost predicate Spaced(a: Attempt, k: nat, next: Time) {
    match a.failedAt
    case None => a.at + CLAIM_TIMEOUT < next
    case Some(t) => a.at <= t && t + Backoff(k) <= next
  }

  ghost predicate Paced(h: seq<Attempt>) {
    forall k :: 0 < k < |h| ==> Spaced(h[k - 1], k, h[k].at)
  }

  ghost predicate Past(h: seq<Attempt>, now: Time) {
    forall k :: 0 <= k < |h| ==> h[k].at <= now && (h[k].failedAt.Some? ==> h[k].at <= h[k].failedAt.value <= now)
  }

  ghost predicate Traced(row: Row, h: seq<Attempt>, now: Time)
    requires RowOk(row)
  {
    && |h| == row.attempts
    && Paced(h) && Past(h, now)
    && (row.status == Pending && h != [] ==>
          h[|h| - 1].failedAt.Some? && row.nextAttemptAt == h[|h| - 1].failedAt.value + Backoff(|h|))
    && (row.status == Processing ==> h[|h| - 1].failedAt.None? && row.claimedAt == Some(h[|h| - 1].at))
    && (row.status == Failed ==> h[|h| - 1].failedAt.Some?)
  }

  ghost predicate HistoryOk(s: Box)
    requires RowsOk(s)
  {
    && s.history.Keys == s.rows.Keys
    && forall r :: r in s.rows ==> Traced(s.rows[r], s.history[r], s.now)
  }

  ghost predicate Holds(s: Box, w: Id, r: Id) {
    w in s.workers && s.workers[w].Claiming? && r in s.workers[w].ids
  }

  ghost predicate LocksOk(s: Box) {
    && (forall w, r :: Holds(s, w, r) ==>
          && r in s.rows && s.workers[w].at <= s.now
          && Claimable(s.rows[r], s.workers[w].at, CLAIM_TIMEOUT, MAX_ATTEMPTS))
    && (forall w, v, r :: Holds(s, w, r) && Holds(s, v, r) ==> w == v)
  }

  ghost predicate InBatch(s: Box, w: Id, i: int) {
    w in s.workers && s.workers[w].Draining? && 0 <= i < |s.workers[w].batch|
  }

  ghost predicate RecordOk(s: Box, w: Id, c: Record) {
    && c.id in s.rows
    && c.message == s.rows[c.id].message
    && 1 <= c.attempts <= s.rows[c.id].attempts
    && (s.rows[c.id].claimedBy == Some(w) ==>
          c.attempts == s.rows[c.id].attempts && s.rows[c.id].claimedAt == Some(c.claimedAt))
  }

  ghost predicate SameClaim(s: Box, w: Id, i: int, v: Id, j: int)
    requires InBatch(s, w, i) && InBatch(s, v, j)
  {
    var c, d := s.workers[w].batch[i], s.workers[v].batch[j];
    c.id == d.id && c.attempts == d.attempts
  }

  ghost predicate BatchesOk(s: Box) {
    && (forall w, i :: InBatch(s, w, i) ==> RecordOk(s, w, s.workers[w].batch[i]))
    && (forall w, i, j :: InBatch(s, w, i) && InBatch(s, w, j) && s.workers[w].batch[i].id == s.workers[w].batch[j].id ==>
          i == j)
    && (forall w, i, v, j :: InBatch(s, w, i) && InBatch(s, v, j) && SameClaim(s, w, i, v, j) ==> w == v)
  }

  ghost predicate Logged(log: seq<Entry>, r: Id) {
    exists i :: 0 <= i < |log| && log[i].via.row == r
  }

  ghost predicate LogOk(s: Box) {
    && (forall i :: 0 <= i < |s.log| ==>
          s.log[i].via.row in s.rows && s.log[i].message.SameContent(s.rows[s.log[i].via.row].message))
    && (forall t :: t in s.direct ==>
          s.direct[t].row in s.rows && s.direct[t].message.SameContent(s.rows[s.direct[t].row].message))
  }

  ghost predicate TruthOk(s: Box) {
    && (forall r :: r in s.rows && s.rows[r].status == Published ==> Logged(s.log, r))
    && (forall w :: InBatch(s, w, 0) && s.workers[w].phase == Marking ==> Logged(s.log, s.workers[w].batch[0].id))
    && (forall t :: t in s.direct && s.direct[t].acked ==> Logged(s.log, s.direct[t].row))
  }

  // A record the dispatcher has not handed to the broker yet.
  ghost predicate Unsent(s: Box, w: Id, i: int) {
    InBatch(s, w, i) && (i > 0 || s.workers[w].phase == Publishing)
  }

  ghost predicate TagsOk(s: Box) {
    && (forall i :: 0 <= i < |s.log| && s.log[i].via.Dispatcher? ==>
          s.log[i].via.row in s.rows && 1 <= s.log[i].via.attempt <= s.rows[s.log[i].via.row].attempts)
    && (forall i, j :: 0 <= i < |s.log| && 0 <= j < |s.log| && s.log[i].via.Dispatcher? && s.log[i].via == s.log[j].via ==>
          i == j)
    && (forall i, w, k :: 0 <= i < |s.log| && Unsent(s, w, k) ==>
          s.log[i].via != Dispatcher(s.workers[w].batch[k].id, s.workers[w].batch[k].attempts))
  }

  // The attempt a batched record stands for: claimed when the record says, and without a recorded failure.
  ghost predicate RecordTraced(s: Box, c: Record) {
    && c.id in s.history && 1 <= c.attempts <= |s.history[c.id]|
    && s.history[c.id][c.attempts - 1] == Attempt(c.claimedAt, None)
  }

  ghost predicate TracesOk(s: Box) {
    forall w, i :: InBatch(s, w, i) ==> RecordTraced(s, s.workers[w].batch[i])
  }

  ghost predicate Inv(s: Box) {
    && RowsOk(s) && HistoryOk(s) && LocksOk(s) && BatchesOk(s)
    && LogOk(s) && TruthOk(s) && TagsOk(s) && TracesOk(s)
  }

  /******* How one row moves in one step *******/

  ghost predicate Rests(s: Box, s': Box, r: Id)
    requires r in s.rows && r in s'.rows && r in s.history && r in s'.history
  {
    s'.rows[r] == s.rows[r] && s'.history[r] == s.history[r]
  }

  ghost predicate IsClaimed(s: Box, s': Box, r: Id, w: Id)
    requires r in s.rows && r in s'.rows && r in s.history && r in s'.history
  {
    && Holds(s, w, r) && !(w in s'.workers && s'.workers[w].Claiming?)
    && s'.rows[r] == ClaimRow(s.rows[r], w, s.workers[w].at)
    && s'.history[r] == s.history[r] + [Attempt(s.workers[w].at, None)]
  }

  ghost predicate IsMarked(s: Box, s': Box, r: Id)
    requires r in s.rows && r in s'.rows && r in s.history && r in s'.history
  {
    && r !in Locked(s)
    && s'.rows[r] == s.rows[r].(status := Published, claimedAt := None, claimedBy := None)
    && s'.history[r] == s.history[r]
    && Logged(s.log, r)
  }

  ghost predicate IsFailed(s: Box, s': Box, r: Id)
    requires r in s.rows && r in s'.rows && r in s.history && r in s'.history
  {
    var row := s.rows[r];
    var h := s.history[r];
    && r !in Locked(s)
    && row.status == Processing && h != []
    && s'.rows[r] == row.(status := if row.attempts >= MAX_ATTEMPTS then Failed else Pending,
                          nextAttemptAt := s.now + Backoff(row.attempts), claimedAt := None, claimedBy := None)
    && s'.history[r] == h[..|h| - 1] + [Attempt(h[|h| - 1].at, Some(s.now))]
  }

  ghost predicate Moves(s: Box, s': Box, r: Id)
    requires r in s.rows && r in s'.rows && r in s.history && r in s'.history
  {
    Rests(s, s', r) || (exists w :: IsClaimed(s, s', r, w)) || IsMarked(s, s', r) || IsFailed(s, s', r)
  }

  // Rows are never deleted; each one rests, is claimed by the holder of its lock, is marked, or has a failure recorded.
  ghost predicate TableMoves(s: Box, s': Box) {
    && s.rows.Keys <= s'.rows.Keys && s.history.Keys == s.rows.Keys && s'.history.Keys == s'.rows.Keys
    && s.now <= s'.now
    && forall r :: r in s.rows ==> Moves(s, s', r)
  }

  lemma HeldIsLocked(s: Box, w: Id, r: Id)
    requires Holds(s, w, r)
    ensures r in Locked(s)
  {
  }

  ghost predicate HistoryKeys(s: Box) {
    s.history.Keys == s.rows.Keys
  }

  lemma CommitMoves(s: Box, w: Id, order: seq<Id>, returned: bool)
    requires Inv(s) && Enabled(s, Commit(w, order, returned))
    ensures TableMoves(s, Apply(s, Commit(w, order, returned)))
  {
    var s' := Apply(s, Commit(w, order, returned));
    forall r | r in s.rows ensures Moves(s, s', r) {
      if r in ToSet(order) {
        assert IsClaimed(s, s', r, w);
      } else {
        assert Rests(s, s', r);
      }
    }
  }

  lemma MarkMoves(s: Box, w: Id, call: Call)
    requires Inv(s) && Enabled(s, Mark(w, call))
    ensures TableMoves(s, Apply(s, Mark(w, call)))
  {
    var s' := Apply(s, Mark(w, call));
    var id := Head(s, w).id;
    assert InBatch(s, w, 0);
    forall r | r in s.rows ensures Moves(s, s', r) {
      assert Rests(s, s', r) || (r == id && IsMarked(s, s', r));
    }
  }

  // What makes the retry policy sound: a failure that takes effect carries the row's current attempt number.
  lemma FailureIsCurrent(s: Box, w: Id)
    requires BatchesOk(s) && AtHead(s, w, Failing) && FailureApplies(s.rows, Head(s, w).id, w)
    ensures Head(s, w).attempts == s.rows[Head(s, w).id].attempts
  {
  }

  lemma FailureMoves(s: Box, w: Id, call: Call)
    requires HistoryKeys(s) && Enabled(s, Fail(w, call)) && !call.Lost? && FailureApplies(s.rows, Head(s, w).id, w)
    requires Head(s, w).attempts == s.rows[Head(s, w).id].attempts && s.history[Head(s, w).id] != []
    ensures IsFailed(s, Apply(s, Fail(w, call)), Head(s, w).id)
  {
  }

  lemma FailureSpares(s: Box, w: Id, call: Call, r: Id)
    requires HistoryKeys(s) && Enabled(s, Fail(w, call)) && r in s.rows
    requires call.Lost? || r != Head(s, w).id || !FailureApplies(s.rows, r, w)
    ensures Apply(s, Fail(w, call)).rows.Keys == s.rows.Keys && HistoryKeys(Apply(s, Fail(w, call)))
    ensures Rests(s, Apply(s, Fail(w, call)), r)
  {
  }

  lemma HeadHasAttempts(s: Box, w: Id)
    requires RowsOk(s) && HistoryOk(s) && BatchesOk(s) && AtHead(s, w, Failing) && FailureApplies(s.rows, Head(s, w).id, w)
    ensures Head(s, w).attempts == s.rows[Head(s, w).id].attempts && s.history[Head(s, w).id] != []
  {
    assert InBatch(s, w, 0) && RowOk(s.rows[Head(s, w).id]);
    assert Traced(s.rows[Head(s, w).id], s.history[Head(s, w).id], s.now);
  }

  lemma FailMoves(s: Box, w: Id, call: Call)
    requires Inv(s) && Enabled(s, Fail(w, call))
    ensures TableMoves(s, Apply(s, Fail(w, call)))
  {
    var s' := Apply(s, Fail(w, call));
    assert s'.rows.Keys == s.rows.Keys && HistoryKeys(s');
    forall r | r in s.rows ensures Moves(s, s', r) {
      if call.Lost? || r != Head(s, w).id || !FailureApplies(s.rows, r, w) {
        FailureSpares(s, w, call, r);
      } else {
        HeadHasAttempts(s, w);
        FailureMoves(s, w, call);
      }
    }
  }

  lemma DirectMarkMoves(s: Box, t: Id, call: Call)
    requires HistoryKeys(s) && LogOk(s) && TruthOk(s) && Enabled(s, DirectMark(t, call))
    ensures TableMoves(s, Apply(s, DirectMark(t, call)))
  {
  }

  lemma OtherStepMoves(s: Box, step: Step)
    requires HistoryKeys(s) && Enabled(s, step)
    requires !step.Commit? && !step.Mark? && !step.Fail? && !step.DirectMark?
    ensures TableMoves(s, Apply(s, step))
  {
  }

  lemma StepKeepsKeys(s: Box, step: Step)
    requires Enabled(s, step) && !step.Insert?
    ensures Apply(s, step).rows.Keys == s.rows.Keys
  {
  }

  lemma StepMoves(s: Box, step: Step)
    requires Inv(s) && Enabled(s, step)
    ensures TableMoves(s, Apply(s, step))
  {
    match step
    case Commit(w, order, returned) => CommitMoves(s, w, order, returned);
    case Mark(w, call) => MarkMoves(s, w, call);
    case Fail(w, call) => FailMoves(s, w, call);
    case DirectMark(t, call) => DirectMarkMoves(s, t, call);
    case _ => OtherStepMoves(s, step);
  }

  /******* Rows and their histories *******/

  lemma ClaimKeepsRow(s: Box, s': Box, r: Id, w: Id)
    requires RowsOk(s) && HistoryOk(s) && LocksOk(s) && r in s.rows && r in s'.rows && r in s'.history && s.now <= s'.now
    requires IsClaimed(s, s', r, w)
    ensures RowOk(s'.rows[r]) && Traced(s'.rows[r], s'.history[r], s'.now)
  {
    var h, h' := s.history[r], s'.history[r];
    assert Claimable(s.rows[r], s.workers[w].at, CLAIM_TIMEOUT, MAX_ATTEMPTS) && s.workers[w].at <= s.now;
    assert Traced(s.rows[r], h, s.now);
    forall k | 0 < k < |h'| ensures Spaced(h'[k - 1], k, h'[k].at) {
      if k < |h| { assert Spaced(h[k - 1], k, h[k].at); }
    }
  }

  lemma FailKeepsRow(s: Box, s': Box, r: Id)
    requires RowsOk(s) && HistoryOk(s) && r in s.rows && r in s'.rows && r in s'.history && s.now <= s'.now
    requires IsFailed(s, s', r)
    ensures RowOk(s'.rows[r]) && Traced(s'.rows[r], s'.history[r], s'.now)
  {
    var h, h' := s.history[r], s'.history[r];
    assert Traced(s.rows[r], h, s.now);
    forall k | 0 < k < |h'| ensures Spaced(h'[k - 1], k, h'[k].at) {
      assert Spaced(h[k - 1], k, h[k].at);
    }
  }

  lemma MoveKeepsRow(s: Box, s': Box, r: Id)
    requires RowsOk(s) && HistoryOk(s) && LocksOk(s) && TableMoves(s, s') && r in s.rows
    ensures RowOk(s'.rows[r]) && Traced(s'.rows[r], s'.history[r], s'.now)
    ensures s'.rows[r].message == s.rows[r].message && s.rows[r].attempts <= s'.rows[r].attempts
  {
    assert Moves(s, s', r);
    assert Traced(s.rows[r], s.history[r], s.now);
    if w :| IsClaimed(s, s', r, w) {
      ClaimKeepsRow(s, s', r, w);
    } else if IsFailed(s, s', r) {
      FailKeepsRow(s, s', r);
    }
  }

  lemma MovesKeepRows(s: Box, s': Box)
    requires RowsOk(s) && HistoryOk(s) && LocksOk(s) && TableMoves(s, s') && s'.rows.Keys == s.rows.Keys
    ensures RowsOk(s') && HistoryOk(s')
  {
    forall r | r in s.rows
      ensures RowOk(s'.rows[r]) && Traced(s'.rows[r], s'.history[r], s'.now) && s'.rows[r].message == s.rows[r].message
    {
      MoveKeepsRow(s, s', r);
    }
  }

  lemma InsertKeepsRows(s: Box, s': Box, id: Id, message: Message)
    requires RowsOk(s) && HistoryOk(s) && CanInsert(s.rows, id, message)
    requires s'.rows == s.rows[id := NewRow(message, s.now)] && s'.history == s.history[id := []] && s'.now == s.now
    ensures RowsOk(s') && HistoryOk(s')
  {
    forall r | r in s'.rows ensures RowOk(s'.rows[r]) && Traced(s'.rows[r], s'.history[r], s'.now) {
      if r != id { assert RowOk(s.rows[r]) && Traced(s.rows[r], s.history[r], s.now); }
    }
  }

  lemma StepKeepsRows(s: Box, step: Step)
    requires Inv(s) && Enabled(s, step)
    ensures RowsOk(Apply(s, step)) && HistoryOk(Apply(s, step))
  {
    if step.Insert? {
      InsertKeepsRows(s, Apply(s, step), step.id, step.message);
    } else {
      StepMoves(s, step);
      StepKeepsKeys(s, step);
      MovesKeepRows(s, Apply(s, step));
    }
  }

  /******* Locks *******/

  predicate ActsFor(step: Step, w: Id) {
    match step
    case Lock(v, _, _) => v == w
    case Commit(v, _, _) => v == w
    case Abort(v) => v == w
    case Publish(v, _) => v == w
    case Mark(v, _) => v == w
    case Fail(v, _) => v == w
    case Crash(v) => v == w
    case _ => false
  }

  lemma OthersWait(s: Box, step: Step, w: Id)
    requires Enabled(s, step) && !ActsFor(step, w)
    ensures w in Apply(s, step).workers <==> w in s.workers
    ensures w in s.workers ==> Apply(s, step).workers[w] == s.workers[w]
  {
  }

  // Row locks are taken by Lock alone.
  lemma LocksFrom(s: Box, step: Step, w: Id, r: Id)
    requires Enabled(s, step) && Holds(Apply(s, step), w, r)
    ensures (step.Lock? && step.w == w && r in step.ids && Apply(s, step).workers[w].at == s.now)
         || (Holds(s, w, r) && Apply(s, step).workers[w] == s.workers[w])
  {
  }

  lemma HeldRowsRest(s: Box, s': Box, w: Id, r: Id)
    requires LocksOk(s) && TableMoves(s, s') && Holds(s, w, r) && Holds(s', w, r)
    ensures r in s.rows && s'.rows[r] == s.rows[r]
  {
  }

  lemma StepKeepsLocks(s: Box, step: Step)
    requires Inv(s) && Enabled(s, step)
    ensures LocksOk(Apply(s, step))
  {
    var s' := Apply(s, step);
    StepMoves(s, step);
    forall w, r | Holds(s', w, r)
      ensures r in s'.rows && s'.workers[w].at <= s'.now
      ensures Claimable(s'.rows[r], s'.workers[w].at, CLAIM_TIMEOUT, MAX_ATTEMPTS)
    {
      LocksFrom(s, step, w, r);
      if Holds(s, w, r) { HeldRowsRest(s, s', w, r); }
    }
    forall w, v, r | Holds(s', w, r) && Holds(s', v, r) ensures w == v {
      LocksFrom(s, step, w, r);
      LocksFrom(s, step, v, r);
      if Holds(s, w, r) { HeldIsLocked(s, w, r); }
      if Holds(s, v, r) { HeldIsLocked(s, v, r); }
    }
  }

  /******* Batches *******/

  // Nothing written by a business transaction changes, and attempts only grow.
  lemma StepCarriesRows(s: Box, step: Step)
    requires Inv(s) && Enabled(s, step)
    ensures ContentKept(s, Apply(s, step))
  {
    StepMoves(s, step);
    forall r | r in s.rows
      ensures Apply(s, step).rows[r].message == s.rows[r].message && s.rows[r].attempts <= Apply(s, step).rows[r].attempts
    {
      MoveKeepsRow(s, Apply(s, step), r);
    }
  }

  lemma ContentStays(rows: Table, rows': Table)
    requires rows'.Keys == rows.Keys && forall r :: r in rows ==> rows'[r].message == rows[r].message
    ensures Content(rows') == Content(rows)
  {
  }

  lemma ContentGrows(rows: Table, id: Id, row: Row)
    ensures Content(rows[id := row]) == Content(rows)[id := row.message]
  {
  }

  // Rows appear by inserts alone, and their messages never change.
  lemma StepKeepsContent(s: Box, step: Step)
    requires Inv(s) && Enabled(s, step)
    ensures Content(Apply(s, step).rows)
         == if step.Insert? then Content(s.rows)[step.id := step.message] else Content(s.rows)
  {
    if step.Insert? {
      ContentGrows(s.rows, step.id, NewRow(step.message, s.now));
    } else {
      StepCarriesRows(s, step);
      StepKeepsKeys(s, step);
      ContentStays(s.rows, Apply(s, step).rows);
    }
  }

  // Outside Commit a dispatcher can only go on to the next record of its batch.
  ghost predicate BatchMoves(s: Box, s': Box, w: Id) {
    w in s'.workers && s'.workers[w].Draining? ==>
      && w in s.workers && s.workers[w].Draining?
      && (|| s'.workers[w].batch == s.workers[w].batch
          || (s.workers[w].batch != [] && s'.workers[w].batch == s.workers[w].batch[1..] && s'.workers[w].phase == Publishing))
  }

  lemma StepMovesBatches(s: Box, step: Step, w: Id)
    requires Enabled(s, step) && !(step.Commit? && step.w == w)
    ensures BatchMoves(s, Apply(s, step), w)
  {
    if !ActsFor(step, w) {
      OthersWait(s, step, w);
    }
  }

  lemma RecordCarries(s: Box, s': Box, w: Id, c: Record)
    requires RowsOk(s) && HistoryOk(s) && LocksOk(s) && TableMoves(s, s')
    requires RecordOk(s, w, c) && w in s.workers && s.workers[w].Draining?
    ensures RecordOk(s', w, c)
  {
  }

  function Shift(s: Box, s': Box, w: Id): nat
    requires w in s.workers && s.workers[w].Draining? && w in s'.workers && s'.workers[w].Draining?
  {
    if s'.workers[w].batch == s.workers[w].batch then 0 else 1
  }

  lemma BatchOrigin(s: Box, s': Box, w: Id, i: int)
    requires BatchMoves(s, s', w) && InBatch(s', w, i)
    ensures InBatch(s, w, i + Shift(s, s', w))
    ensures s'.workers[w].batch[i] == s.workers[w].batch[i + Shift(s, s', w)]
  {
  }

  lemma BatchesCarry(s: Box, s': Box)
    requires RowsOk(s) && HistoryOk(s) && LocksOk(s) && BatchesOk(s) && TableMoves(s, s')
    requires forall w :: BatchMoves(s, s', w)
    ensures BatchesOk(s')
  {
    forall w, i | InBatch(s', w, i) ensures RecordOk(s', w, s'.workers[w].batch[i]) {
      BatchOrigin(s, s', w, i);
      RecordCarries(s, s', w, s'.workers[w].batch[i]);
    }
    forall w, i, j | InBatch(s', w, i) && InBatch(s', w, j) && s'.workers[w].batch[i].id == s'.workers[w].batch[j].id
      ensures i == j
    {
      BatchOrigin(s, s', w, i);
      BatchOrigin(s, s', w, j);
    }
    forall w, i, v, j | InBatch(s', w, i) && InBatch(s', v, j) && SameClaim(s', w, i, v, j) ensures w == v {
      BatchOrigin(s, s', w, i);
      BatchOrigin(s, s', v, j);
      assert SameClaim(s, w, i + Shift(s, s', w), v, j + Shift(s, s', v));
    }
  }

  // A record returned by a claim counts an attempt that no batch has seen before.
  lemma CommitRecord(s: Box, w: Id, order: seq<Id>, returned: bool, i: int)
    requires Inv(s) && Enabled(s, Commit(w, order, returned))
    requires InBatch(Apply(s, Commit(w, order, returned)), w, i)
    ensures returned && i < |order| && order[i] in s.rows && Holds(s, w, order[i])
    ensures var c := Apply(s, Commit(w, order, returned)).workers[w].batch[i];
            c == Record(order[i], s.rows[order[i]].message, s.rows[order[i]].attempts + 1, s.workers[w].at)
  {
    assert order[i] in ToSet(order);
  }

  lemma CommitKeepsClaimsApart(s: Box, w: Id, order: seq<Id>, returned: bool)
    requires Inv(s) && Enabled(s, Commit(w, order, returned))
    ensures var s' := Apply(s, Commit(w, order, returned));
            forall u, i, v, j :: InBatch(s', u, i) && InBatch(s', v, j) && SameClaim(s', u, i, v, j) ==> u == v
  {
    var s' := Apply(s, Commit(w, order, returned));
    forall u, i, v, j | InBatch(s', u, i) && InBatch(s', v, j) && SameClaim(s', u, i, v, j) ensures u == v {
      if u == w { CommitRecord(s, w, order, returned, i); } else { assert InBatch(s, u, i); }
      if v == w { CommitRecord(s, w, order, returned, j); } else { assert InBatch(s, v, j); }
      if u != w && v != w { assert SameClaim(s, u, i, v, j); }
    }
  }

  lemma CommitKeepsRecords(s: Box, w: Id, order: seq<Id>, returned: bool, v: Id, i: int)
    requires Inv(s) && Enabled(s, Commit(w, order, returned)) && InBatch(Apply(s, Commit(w, order, returned)), v, i)
    ensures var s' := Apply(s, Commit(w, order, returned)); RecordOk(s', v, s'.workers[v].batch[i])
  {
    var s' := Apply(s, Commit(w, order, returned));
    if v == w {
      CommitRecord(s, w, order, returned, i);
      assert order[i] in ToSet(order);
    } else {
      CommitMoves(s, w, order, returned);
      assert InBatch(s, v, i);
      RecordCarries(s, s', v, s'.workers[v].batch[i]);
    }
  }

  lemma CommitKeepsDistinct(s: Box, w: Id, order: seq<Id>, returned: bool, v: Id, i: int, j: int)
    requires Inv(s) && Enabled(s, Commit(w, order, returned))
    requires var s' := Apply(s, Commit(w, order, returned));
             && InBatch(s', v, i) && InBatch(s', v, j) && s'.workers[v].batch[i].id == s'.workers[v].batch[j].id
    ensures i == j
  {
    if v == w {
      CommitRecord(s, w, order, returned, i);
      CommitRecord(s, w, order, returned, j);
    } else {
      assert InBatch(s, v, i) && InBatch(s, v, j);
    }
  }

  lemma CommitKeepsBatches(s: Box, w: Id, order: seq<Id>, returned: bool)
    requires Inv(s) && Enabled(s, Commit(w, order, returned))
    ensures BatchesOk(Apply(s, Commit(w, order, returned)))
  {
    var s' := Apply(s, Commit(w, order, returned));
    forall v, i | InBatch(s', v, i) ensures RecordOk(s', v, s'.workers[v].batch[i]) {
      CommitKeepsRecords(s, w, order, returned, v, i);
    }
    forall v, i, j | InBatch(s', v, i) && InBatch(s', v, j) && s'.workers[v].batch[i].id == s'.workers[v].batch[j].id
      ensures i == j
    {
      CommitKeepsDistinct(s, w, order, returned, v, i, j);
    }
    CommitKeepsClaimsApart(s, w, order, returned);
  }

  lemma StepKeepsBatches(s: Box, step: Step)
    requires Inv(s) && Enabled(s, step)
    ensures BatchesOk(Apply(s, step))
  {
    if step.Commit? {
      CommitKeepsBatches(s, step.w, step.order, step.returned);
    } else {
      StepMoves(s, step);
      forall w ensures BatchMoves(s, Apply(s, step), w) { StepMovesBatches(s, step, w); }
      BatchesCarry(s, Apply(s, step));
    }
  }

  /******* Attempts behind the batches *******/

  // Only a recorded failure rewrites an attempt, and only the last one; claims append.
  lemma StepMovesHistory(s: Box, step: Step, r: Id)
    requires HistoryKeys(s) && Enabled(s, step) && r in s.rows
    ensures r in Apply(s, step).history && |s.history[r]| <= |Apply(s, step).history[r]|
    ensures forall k :: 0 <= k < |s.history[r]| - 1 ==> Apply(s, step).history[r][k] == s.history[r][k]
    ensures !(step.Fail? && FailureApplies(s.rows, r, step.w) && r == Head(s, step.w).id) ==>
              s.history[r] <= Apply(s, step).history[r]
  {
    var h, h' := s.history, Apply(s, step).history;
    match step
    case Commit(w, order, _) => assert h' == NoteClaims(h, ToSet(order), s.workers[w].at);
    case Fail(w, call) => assert h' == h || h' == NoteFailure(h, Head(s, w).id, s.now);
    case Insert(id, _, _) => assert h' == h[id := []];
    case _ => assert h' == h;
  }

  lemma TraceCarries(s: Box, step: Step, w: Id, i: int)
    requires RowsOk(s) && HistoryOk(s) && BatchesOk(s) && TracesOk(s)
    requires Enabled(s, step) && !(step.Commit? && step.w == w) && InBatch(Apply(s, step), w, i)
    ensures RecordTraced(Apply(s, step), Apply(s, step).workers[w].batch[i])
  {
    var s' := Apply(s, step);
    StepMovesBatches(s, step, w);
    BatchOrigin(s, s', w, i);
    var j := i + Shift(s, s', w);
    var c := s.workers[w].batch[j];
    StepMovesHistory(s, step, c.id);
    if step.Fail? && FailureApplies(s.rows, c.id, step.w) && c.id == Head(s, step.w).id {
      FailureIsCurrent(s, step.w);
      assert Traced(s.rows[c.id], s.history[c.id], s.now);
      assert InBatch(s, step.w, 0);
      if step.w != w {
        assert !SameClaim(s, w, j, step.w, 0);
      }
    }
  }

  lemma StepKeepsTraces(s: Box, step: Step)
    requires Inv(s) && Enabled(s, step)
    ensures TracesOk(Apply(s, step))
  {
    var s' := Apply(s, step);
    forall w, i | InBatch(s', w, i) ensures RecordTraced(s', s'.workers[w].batch[i]) {
      if step.Commit? && step.w == w {
        CommitRecord(s, w, step.order, step.returned, i);
        assert step.order[i] in ToSet(step.order);
      } else {
        TraceCarries(s, step, w, i);
      }
    }
  }

  /******* The log *******/

  // What a step adds to the log: nothing, the head of a batch, or the direct publisher's copy.
  ghost predicate LogMoves(s: Box, step: Step, log: seq<Entry>) {
    || log == s.log
    || (step.Publish? && AtHead(s, step.w, Publishing)
        && log == s.log + [Entry(Head(s, step.w).message, Dispatcher(Head(s, step.w).id, Head(s, step.w).attempts))])
    || (step.DirectPublish? && step.direct in s.direct
        && log == s.log + [Entry(s.direct[step.direct].message, DirectPath(s.direct[step.direct].row))])
  }

  lemma StepMovesLog(s: Box, step: Step)
    requires Enabled(s, step)
    ensures LogMoves(s, step, Apply(s, step).log)
    ensures s.log <= Apply(s, step).log
  {
  }

  ghost predicate DirectMoves(s: Box, step: Step, s': Box, t: Id) {
    t in s'.direct ==>
      || (t in s.direct && s'.direct[t] == s.direct[t])
      || (step.DirectPublish? && step.direct == t && t in s.direct && s'.direct[t] == s.direct[t].(acked := true)
          && s'.log == s.log + [Entry(s.direct[t].message, DirectPath(s.direct[t].row))])
      || (step.Insert? && step.task.Some? && s'.direct[t] == Direct(step.id, step.task.value.1, false)
          && step.task.value.1.SameContent(step.message) && step.id in s'.rows && s'.rows[step.id].message == step.message)
  }

  lemma StepMovesDirect(s: Box, step: Step, t: Id)
    requires Enabled(s, step)
    ensures DirectMoves(s, step, Apply(s, step), t)
  {
  }

  ghost predicate ContentKept(s: Box, s': Box) {
    forall r :: r in s.rows ==>
      r in s'.rows && s'.rows[r].message == s.rows[r].message && s.rows[r].attempts <= s'.rows[r].attempts
  }

  lemma LogCarries(s: Box, step: Step, s': Box)
    requires LogOk(s) && BatchesOk(s) && ContentKept(s, s') && LogMoves(s, step, s'.log)
    requires forall t :: DirectMoves(s, step, s', t)
    ensures LogOk(s')
  {
    if step.Publish? { assert AtHead(s, step.w, Publishing) ==> InBatch(s, step.w, 0); }
    forall t | t in s'.direct
      ensures s'.direct[t].row in s'.rows && s'.direct[t].message.SameContent(s'.rows[s'.direct[t].row].message)
    {
      assert DirectMoves(s, step, s', t);
    }
  }

  lemma StepKeepsLog(s: Box, step: Step)
    requires Inv(s) && Enabled(s, step)
    ensures LogOk(Apply(s, step))
  {
    StepCarriesRows(s, step);
    StepMovesLog(s, step);
    forall t ensures DirectMoves(s, step, Apply(s, step), t) { StepMovesDirect(s, step, t); }
    LogCarries(s, step, Apply(s, step));
  }

  lemma LoggedGrows(log: seq<Entry>, log': seq<Entry>, r: Id)
    requires Logged(log, r) && log <= log'
    ensures Logged(log', r)
  {
  }

  lemma LoggedLast(log: seq<Entry>, e: Entry)
    ensures Logged(log + [e], e.via.row)
  {
    assert (log + [e])[|log|] == e;
  }

  lemma PublishedRowsLogged(s: Box, s': Box, r: Id)
    requires RowsOk(s) && HistoryOk(s) && LocksOk(s) && TruthOk(s) && TableMoves(s, s') && s.log <= s'.log
    requires r in s.rows && s'.rows[r].status == Published
    ensures Logged(s'.log, r)
  {
    assert Moves(s, s', r);
    LoggedGrows(s.log, s'.log, r);
  }

  lemma MarkingWasSent(s: Box, step: Step, w: Id)
    requires TruthOk(s) && Enabled(s, step)
    requires InBatch(Apply(s, step), w, 0) && Apply(s, step).workers[w].phase == Marking
    ensures Logged(Apply(s, step).log, Apply(s, step).workers[w].batch[0].id)
  {
    var s' := Apply(s, step);
    StepMovesLog(s, step);
    if step.Publish? && step.w == w {
      LoggedLast(s.log, Entry(Head(s, w).message, Dispatcher(Head(s, w).id, Head(s, w).attempts)));
    } else {
      assert InBatch(s, w, 0) && s.workers[w] == s'.workers[w] by {
        if !ActsFor(step, w) { OthersWait(s, step, w); }
      }
      LoggedGrows(s.log, s'.log, s.workers[w].batch[0].id);
    }
  }

  lemma AckedWasSent(s: Box, step: Step, t: Id)
    requires TruthOk(s) && Enabled(s, step) && t in Apply(s, step).direct && Apply(s, step).direct[t].acked
    ensures Logged(Apply(s, step).log, Apply(s, step).direct[t].row)
  {
    StepMovesLog(s, step);
    StepMovesDirect(s, step, t);
    if t in s.direct && s.direct[t].acked {
      LoggedGrows(s.log, Apply(s, step).log, s.direct[t].row);
    } else {
      LoggedLast(s.log, Entry(s.direct[t].message, DirectPath(s.direct[t].row)));
    }
  }

  lemma StepKeepsTruth(s: Box, step: Step)
    requires Inv(s) && Enabled(s, step)
    ensures TruthOk(Apply(s, step))
  {
    var s' := Apply(s, step);
    StepMoves(s, step);
    StepMovesLog(s, step);
    forall r | r in s'.rows && s'.rows[r].status == Published ensures Logged(s'.log, r) {
      if r in s.rows { PublishedRowsLogged(s, s', r); }
    }
    forall w | InBatch(s', w, 0) && s'.workers[w].phase == Marking ensures Logged(s'.log, s'.workers[w].batch[0].id) {
      MarkingWasSent(s, step, w);
    }
    forall t | t in s'.direct && s'.direct[t].acked ensures Logged(s'.log, s'.direct[t].row) {
      AckedWasSent(s, step, t);
    }
  }

  /******* Publications are numbered by attempt *******/

  // A record not sent yet was not sent before, unless this very claim returned it.
  lemma UnsentOrigin(s: Box, step: Step, w: Id, i: int)
    requires Enabled(s, step) && !(step.Commit? && step.w == w) && Unsent(Apply(s, step), w, i)
    ensures BatchMoves(s, Apply(s, step), w)
    ensures Unsent(s, w, i + Shift(s, Apply(s, step), w))
    ensures Apply(s, step).workers[w].batch[i] == s.workers[w].batch[i + Shift(s, Apply(s, step), w)]
    ensures step.Publish? && step.w == w ==> i > 0
  {
    StepMovesBatches(s, step, w);
    if !ActsFor(step, w) {
      OthersWait(s, step, w);
    }
  }

  ghost predicate Fresh(s: Box, log: seq<Entry>, w: Id, k: int)
    requires InBatch(s, w, k)
  {
    forall i :: 0 <= i < |log| ==> log[i].via != Dispatcher(s.workers[w].batch[k].id, s.workers[w].batch[k].attempts)
  }

  lemma ClaimedIsFresh(s: Box, w: Id, order: seq<Id>, returned: bool, k: int)
    requires Inv(s) && Enabled(s, Commit(w, order, returned)) && InBatch(Apply(s, Commit(w, order, returned)), w, k)
    ensures Fresh(Apply(s, Commit(w, order, returned)), s.log, w, k)
  {
    CommitRecord(s, w, order, returned, k);
  }

  lemma UnsentStaysFresh(s: Box, step: Step, w: Id, k: int)
    requires BatchesOk(s) && TagsOk(s) && Enabled(s, step)
    requires Unsent(Apply(s, step), w, k) && !(step.Commit? && step.w == w)
    ensures Fresh(Apply(s, step), Apply(s, step).log, w, k)
  {
    var s' := Apply(s, step);
    StepMovesLog(s, step);
    UnsentOrigin(s, step, w, k);
    var j := k + Shift(s, s', w);
    if step.Publish? {
      assert InBatch(s, w, j) && InBatch(s, step.w, 0);
      assert w != step.w ==> !SameClaim(s, w, j, step.w, 0);
    }
  }

  lemma TagsCarry(s: Box, step: Step, s': Box)
    requires TagsOk(s) && BatchesOk(s) && ContentKept(s, s') && LogMoves(s, step, s'.log)
    requires forall w, k :: Unsent(s', w, k) ==> Fresh(s', s'.log, w, k)
    ensures TagsOk(s')
  {
    if step.Publish? && AtHead(s, step.w, Publishing) { assert Unsent(s, step.w, 0); }
    forall i, w, k | 0 <= i < |s'.log| && Unsent(s', w, k)
      ensures s'.log[i].via != Dispatcher(s'.workers[w].batch[k].id, s'.workers[w].batch[k].attempts)
    {
      assert Fresh(s', s'.log, w, k);
    }
  }

  lemma StepKeepsTags(s: Box, step: Step)
    requires Inv(s) && Enabled(s, step)
    ensures TagsOk(Apply(s, step))
  {
    var s' := Apply(s, step);
    StepCarriesRows(s, step);
    StepMovesLog(s, step);
    forall w, k | Unsent(s', w, k) ensures Fresh(s', s'.log, w, k) {
      if step.Commit? && step.w == w {
        ClaimedIsFresh(s, w, step.order, step.returned, k);
      } else {
        UnsentStaysFresh(s, step, w, k);
      }
    }
    TagsCarry(s, step, s');
  }

  /******* Runs *******/

  lemma InitInv()
    ensures Inv(EMPTY)
  {
  }

  lemma StepKeepsInv(s: Box, step: Step)
    requires Inv(s) && Enabled(s, step)
    ensures Inv(Apply(s, step))
  {
    StepKeepsRows(s, step);
    StepKeepsLocks(s, step);
    StepKeepsBatches(s, step);
    StepKeepsLog(s, step);
    StepKeepsTruth(s, step);
    StepKeepsTags(s, step);
    StepKeepsTraces(s, step);
  }
}
