/**
 How far the copies of one message on a log agree. Dispatchers publish the stored message; the reservation handler publishes
 its own envelope, and builds that of a failure a second time.
 */
module SystemCopies {
  import opened Common
  import opened Messages
  import Outbox
  import OutboxInvariant
  import OutboxTheorems
  import OutboxLifetime
  import Bookings
  import Inventory
  import Saga
  import SagaTheorems
  import opened System
  import opened SystemProgress

  /******* Copies of one row *******/

  // Whatever was or will be published for row r is the stored message, timestamp included.
  ghost predicate Exact(box: Outbox.Box, r: Id) {
    && r in box.rows
    && (forall i :: 0 <= i < |box.log| && box.log[i].via.row == r ==> box.log[i].message == box.rows[r].message)
    && (forall t :: t in box.direct && box.direct[t].row == r ==> box.direct[t].message == box.rows[r].message)
  }

  lemma StepKeepsLogExact(box: Outbox.Box, step: Outbox.Step, r: Id)
    requires OutboxInvariant.BatchesOk(box) && Outbox.Enabled(box, step) && Exact(box, r)
    ensures var log := Outbox.Apply(box, step).log;
            forall i :: 0 <= i < |log| && log[i].via.row == r ==> log[i].message == box.rows[r].message
  {
  }

  // A row stays exact: another task for it is never started.
  lemma StepKeepsExact(box: Outbox.Box, step: Outbox.Step, r: Id)
    requires OutboxInvariant.Inv(box) && Outbox.Enabled(box, step) && Exact(box, r)
    ensures Exact(Outbox.Apply(box, step), r)
  {
    var box' := Outbox.Apply(box, step);
    StepKeepsLogExact(box, step, r);
    OutboxInvariant.StepCarriesRows(box, step);
    forall t | t in box'.direct && box'.direct[t].row == r ensures box'.direct[t].message == box.rows[r].message {
      OutboxInvariant.StepMovesDirect(box, step, t);
    }
  }

  // A new row starts exact unless its handler carries another message.
  lemma InsertIsExact(box: Outbox.Box, insert: Outbox.Step)
    requires OutboxInvariant.Inv(box) && insert.Insert? && Outbox.Enabled(box, insert)
    requires insert.task.Some? ==> insert.task.value.1 == insert.message
    ensures Exact(Outbox.Apply(box, insert), insert.id)
  {
  }

  ghost predicate AllExact(box: Outbox.Box) {
    forall r :: r in box.rows && box.rows[r].message.topic != SeatReservationFailed ==> Exact(box, r)
  }

  predicate CopiesItsRow(move: Option<Outbox.Step>) {
    move.Some? && move.value.Insert? && move.value.task.Some? && move.value.message.topic != SeatReservationFailed ==>
      move.value.task.value.1 == move.value.message
  }

  lemma MoveKeepsExact(box: Outbox.Box, move: Option<Outbox.Step>, box': Outbox.Box)
    requires OutboxInvariant.Inv(box) && AllExact(box) && BoxMoves(box, move, box') && CopiesItsRow(move)
    ensures AllExact(box')
  {
    if move.Some? {
      forall r | r in box'.rows && box'.rows[r].message.topic != SeatReservationFailed ensures Exact(box', r) {
        if r in box.rows {
          OutboxInvariant.StepCarriesRows(box, move.value);
          StepKeepsExact(box, move.value, r);
        } else {
          if !move.value.Insert? { OutboxInvariant.StepKeepsKeys(box, move.value); }
          InsertIsExact(box, move.value);
        }
      }
    }
  }

  lemma EventMoveCopies(s: State, step: Step)
    requires Enabled(s, step)
    ensures CopiesItsRow(EventMove(s, step)) && CopiesItsRow(BookingMove(s, step))
  {
  }

  lemma {:induction false} RunKeepsExact(s: State, steps: seq<Step>)
    requires Good(s) && AllExact(s.bbox) && AllExact(s.ebox) && Run(s, steps)
    ensures AllExact(After(s, steps).bbox) && AllExact(After(s, steps).ebox)
    decreases steps
  {
    if steps != [] {
      var next := Apply(s, steps[0]);
      StepKeepsExactRows(s, steps[0]);
      StepKeepsGood(s, steps[0]);
      RunKeepsExact(next, steps[1..]);
    }
  }

  lemma StepKeepsExactRows(s: State, step: Step)
    requires Good(s) && AllExact(s.bbox) && AllExact(s.ebox) && Enabled(s, step)
    ensures AllExact(Apply(s, step).bbox) && AllExact(Apply(s, step).ebox)
  {
    OutboxTheorems.ReachableInv(s.bbox);
    OutboxTheorems.ReachableInv(s.ebox);
    EventMoveCopies(s, step);
    BookingMoves(s, step);
    EventMoves(s, step);
    MoveKeepsExact(s.bbox, BookingMove(s, step), Apply(s, step).bbox);
    MoveKeepsExact(s.ebox, EventMove(s, step), Apply(s, step).ebox);
  }

  lemma ReachableExact(s: State)
    requires Reachable(s)
    ensures Good(s) && AllExact(s.bbox) && AllExact(s.ebox)
  {
    var steps :| Run(START, steps) && After(START, steps) == s;
    StartIsGood();
    RunKeepsGood(START, steps);
    RunKeepsExact(START, steps);
  }

  // Every copy on either log is its stored message to the letter, except that of a refused reservation.
  lemma CopiesAreExact(s: State, i: nat)
    requires Reachable(s)
    ensures i < |s.bbox.log| ==>
              && s.bbox.log[i].via.row in s.saga.b.outbox
              && s.bbox.log[i].message == s.saga.b.outbox[s.bbox.log[i].via.row]
    ensures i < |s.ebox.log| && s.ebox.log[i].message.topic != SeatReservationFailed ==>
              && s.ebox.log[i].via.row in s.saga.e.outbox
              && s.ebox.log[i].message == s.saga.e.outbox[s.ebox.log[i].via.row]
  {
    ReachableExact(s);
    LogsAreTruthful(s, i);
    if i < |s.bbox.log| {
      RowIsInBox(s.bbox, s.saga.b.outbox, s.bbox.log[i].via.row);
      SagaTheorems.ReachableCore(s.saga);
    }
    if i < |s.ebox.log| { RowIsInBox(s.ebox, s.saga.e.outbox, s.ebox.log[i].via.row); }
  }

  /******* Copies of a refused reservation *******/

  ghost predicate Differ(log: seq<Outbox.Entry>, j: int, k: int, r: Id) {
    && 0 <= j < |log| && 0 <= k < |log| && log[j].via.row == r && log[k].via.row == r
    && log[j].message != log[k].message
  }

  ghost predicate CopiesDiffer(s: State, steps: seq<Step>, r: Id) {
    Run(s, steps) && exists j, k :: Differ(After(s, steps).ebox.log, j, k, r)
  }

  lemma {:induction false} ExactForever(s: State, steps: seq<Step>, r: Id)
    requires Good(s) && Run(s, steps) && Exact(s.ebox, r)
    ensures Exact(After(s, steps).ebox, r)
    decreases steps
  {
    if steps != [] {
      EventMoves(s, steps[0]);
      OutboxTheorems.ReachableInv(s.ebox);
      if EventMove(s, steps[0]).Some? { StepKeepsExact(s.ebox, EventMove(s, steps[0]).value, r); }
      StepKeepsGood(s, steps[0]);
      ExactForever(Apply(s, steps[0]), steps[1..], r);
    }
  }

  lemma StoredFollows(box: Outbox.Box, j: nat, r: Id) returns (steps: seq<Outbox.Step>)
    requires OutboxInvariant.Inv(box) && r in box.rows && !OutboxTheorems.Settled(box.rows[r])
    requires j < |box.log| && box.log[j].via.row == r && box.log[j].message != box.rows[r].message
    ensures Outbox.Run(box, steps) && OutboxLifetime.Usual(steps)
    ensures var log := Outbox.After(box, steps).log; Differ(log, j, |log| - 1, r)
  {
    steps := OutboxLifetime.ClaimAndPublish(box, r);
    OutboxLifetime.RunKeepsMessage(box, steps, r);
  }

  lemma CopyIsFirst(box: Outbox.Box, t: Id)
    requires t in box.direct && !box.direct[t].acked
    ensures var first := Outbox.DirectPublish(t, Outbox.Acked);
            && Outbox.Enabled(box, first) && Outbox.Run(box, [first]) && Outbox.After(box, [first]) == Outbox.Apply(box, first)
            && Outbox.Apply(box, first).rows == box.rows
            && |Outbox.Apply(box, first).log| == |box.log| + 1
            && OutboxLifetime.EndsWith(Outbox.Apply(box, first).log, box.direct[t].message, box.direct[t].row)
  {
  }

  // The handler publishes its copy, a dispatcher the stored message.
  lemma BothPublish(box: Outbox.Box, t: Id) returns (steps: seq<Outbox.Step>)
    requires OutboxInvariant.Inv(box) && t in box.direct && !box.direct[t].acked
    requires box.direct[t].row in box.rows && !OutboxTheorems.Settled(box.rows[box.direct[t].row])
    requires box.direct[t].message != box.rows[box.direct[t].row].message
    ensures Outbox.Run(box, steps) && OutboxLifetime.Usual(steps)
    ensures var log := Outbox.After(box, steps).log; Differ(log, |box.log|, |log| - 1, box.direct[t].row)
  {
    var r, first := box.direct[t].row, Outbox.DirectPublish(t, Outbox.Acked);
    CopyIsFirst(box, t);
    OutboxInvariant.StepKeepsInv(box, first);
    var rest := StoredFollows(Outbox.Apply(box, first), |box.log|, r);
    OutboxTheorems.RunJoin(box, [first], rest);
    steps := [first] + rest;
  }

  // The reply row that a delivery of a reserve message writes.
  ghost predicate Writes(s: State, step: Step, r: Id) {
    && step.Deliver? && step.step.OnReserve? && Enabled(s, step)
    && r !in s.saga.e.outbox && r in Apply(s, step).saga.e.outbox
  }

  lemma WrittenReply(s: State, step: Step, r: Id)
    requires Good(s) && Writes(s, step, r)
    ensures Good(Apply(s, step)) && Starts(Apply(s, step), step.task, r, step.at)
  {
    StepKeepsGood(s, step);
    RowIsInBox(Apply(s, step).ebox, Apply(s, step).saga.e.outbox, r);
    var insert := WrittenInsert(s, step, r);
    OutboxTheorems.ReachableInv(s.ebox);
    InsertStarts(s.ebox, insert, step.task);
  }

  // The stored reply is new, and the handler has its copy of it in hand.
  ghost predicate Starts(s: State, task: Id, r: Id, at: Time) {
    && r in s.ebox.rows && r in s.saga.e.outbox && s.ebox.rows[r].message == s.saga.e.outbox[r]
    && !OutboxTheorems.Settled(s.ebox.rows[r])
    && task in s.ebox.direct && s.ebox.direct[task] == Outbox.Direct(r, Saga.DirectCopy(s.ebox.rows[r].message, at), false)
    && (s.ebox.direct[task].message == s.ebox.rows[r].message ==> Exact(s.ebox, r))
  }

  lemma WrittenInsert(s: State, step: Step, r: Id) returns (insert: Outbox.Step)
    requires Good(s) && Writes(s, step, r)
    ensures insert.Insert? && insert.id == r && Outbox.Enabled(s.ebox, insert)
    ensures insert.task == Some((step.task, Saga.DirectCopy(insert.message, step.at)))
    ensures Apply(s, step).ebox == Outbox.Apply(s.ebox, insert)
  {
    TransactionApplies(s, step, step.step, step.task, step.at);
    StepWritesOnlyItsRow(s.saga, step.step);
    EventMoves(s, step);
    insert := EventMove(s, step).value;
  }

  lemma InsertStarts(box: Outbox.Box, insert: Outbox.Step, task: Id)
    requires OutboxInvariant.Inv(box) && insert.Insert? && Outbox.Enabled(box, insert)
    requires insert.task.Some? && insert.task.value.0 == task
    ensures var box' := Outbox.Apply(box, insert);
            && insert.id in box'.rows && box'.rows[insert.id].message == insert.message
            && !OutboxTheorems.Settled(box'.rows[insert.id])
            && task in box'.direct && box'.direct[task] == Outbox.Direct(insert.id, insert.task.value.1, false)
            && (insert.task.value.1 == insert.message ==> Exact(box', insert.id))
  {
  }

  lemma WrittenTimes(s: Saga.State, d: Saga.Step, r: Id, at: Time)
    requires d.OnReserve? && Saga.Enabled(s, d) && r !in s.e.outbox && r in Saga.Apply(s, d).e.outbox
    ensures var m := Saga.Apply(s, d).e.outbox[r];
            Saga.DirectCopy(m, at) != m
            <==> Saga.ReserveTx(s, d.m, d.success, d.failure, d.seen).result.SeatsRefused? && at != d.failure.at
  {
  }

  // From the transaction that answers a reserve message on: some run puts two different copies of the answer on the log
  // exactly when the seats were refused and the handler built its envelope at another moment than the stored one.
  lemma CopiesDifferExactly(s: State, step: Step, r: Id)
    requires Reachable(s) && Writes(s, step, r)
    ensures Saga.Enabled(s.saga, step.step)
    ensures var d := step.step;
            if Saga.ReserveTx(s.saga, d.m, d.success, d.failure, d.seen).result.SeatsRefused? && step.at != d.failure.at
            then exists steps :: CopiesDiffer(Apply(s, step), steps, r) && Usual(steps)
            else forall steps :: !CopiesDiffer(Apply(s, step), steps, r)
  {
    ReachableGood(s);
    WrittenReply(s, step, r);
    TransactionApplies(s, step, step.step, step.task, step.at);
    WrittenTimes(s.saga, step.step, r, step.at);
    var t := Apply(s, step);
    if t.ebox.direct[step.task].message == t.ebox.rows[r].message {
      forall steps ensures !CopiesDiffer(t, steps, r) { if Run(t, steps) { ExactForever(t, steps, r); } }
    } else {
      OutboxTheorems.ReachableInv(t.ebox);
      var both := BothPublish(t.ebox, step.task);
      EventSideRuns(t, both);
      assert CopiesDiffer(t, OnEventSide(both), r) && Usual(OnEventSide(both));
    }
  }
}
