/**
 The whole system: the saga's three databases together with the delivery columns, dispatchers, direct publishers and
 broker logs of the two outboxes. A business transaction that writes an outbox row inserts it in the box of its service;
 a consumer receives an entry of a log, any entry, as often as the broker likes.

 Main result: the system refines the saga and, on each side, the outbox protocol. Every theorem about the three parts
 therefore holds of every run of the whole.
 */
module System {
  import opened Common
  import opened Messages
  import Outbox
  import OutboxInvariant
  import OutboxTheorems
  import opened Bookings
  import opened Inventory
  import Saga
  import SagaInvariant
  import SagaTheorems

  datatype State = State(saga: Saga.State, bbox: Outbox.Box, ebox: Outbox.Box)

  const START: State := State(Saga.START, Outbox.EMPTY, Outbox.EMPTY)

  datatype Step =
    | Local(step: Saga.Step)
    | Deliver(entry: nat, step: Saga.Step, task: Id, at: Time)
    | BookingSide(box: Outbox.Step)
    | EventSide(box: Outbox.Step)

  predicate IsLocal(step: Saga.Step) {
    !IsDelivery(step)
  }

  predicate IsDelivery(step: Saga.Step) {
    step.OnReserve? || step.OnCancelled? || step.OnSeatsReserved? || step.OnSeatsRefused? || step.Notify?
  }

  /******* Deliveries *******/

  // The subscriptions of the consumers.
  predicate Subscribed(step: Saga.Step)
    requires IsDelivery(step)
  {
    match step
    case OnReserve(_, m, _, _, _) => m.topic == ReserveSeats
    case OnCancelled(_, m) => m.topic == BookingCancelled
    case OnSeatsReserved(_, m, _) => m.topic == SeatsReserved
    case OnSeatsRefused(_, m, _) => m.topic == SeatReservationFailed
    case Notify(_, m) => m.topic in {BookingConfirmed, BookingFailed, BookingCancelled}
  }

  // event-service publishes what booking-service consumes, and the other way round.
  function LogFor(s: State, step: Saga.Step): seq<Outbox.Entry> {
    if step.OnSeatsReserved? || step.OnSeatsRefused? then s.ebox.log else s.bbox.log
  }

  ghost predicate DrawsFresh(s: State, step: Saga.Step, task: Id) {
    match step
    case OnReserve(_, _, success, failure, _) =>
      Saga.FreshForEvents(s.saga, success) && Saga.FreshForEvents(s.saga, failure) && task !in s.ebox.direct
    case OnSeatsReserved(_, _, draw) => Saga.FreshForBookings(s.saga, draw)
    case OnSeatsRefused(_, _, draw) => Saga.FreshForBookings(s.saga, draw)
    case _ => true
  }

  ghost predicate Enabled(s: State, step: Step) {
    match step
    case Local(b) => IsLocal(b) && Saga.Enabled(s.saga, b)
    case Deliver(i, d, task, _) =>
      && IsDelivery(d) && Subscribed(d) && i < |LogFor(s, d)|
      && LogFor(s, d)[i].message == d.m && LogFor(s, d)[i].via.row == d.row
      && DrawsFresh(s, d, task)
    case BookingSide(b) => !b.Insert? && Outbox.Enabled(s.bbox, b)
    case EventSide(b) => !b.Insert? && Outbox.Enabled(s.ebox, b)
  }

  /******* Business transactions and their rows *******/

  // The row a step may write in the outbox of booking-service, and in that of event-service.
  function BookingRow(step: Saga.Step): Option<Id> {
    match step
    case Create(_, _, draw) => Some(draw.row)
    case Cancel(_, draw) => Some(draw.row)
    case OnSeatsReserved(_, _, draw) => Some(draw.row)
    case OnSeatsRefused(_, _, draw) => Some(draw.row)
    case _ => None
  }

  function EventRow(before: Saga.State, after: Saga.State, step: Saga.Step): Option<Id> {
    match step
    case OnReserve(_, _, success, failure, _) =>
      if success.row in after.e.outbox && success.row !in before.e.outbox then Some(success.row) else Some(failure.row)
    case _ => None
  }

  function Added(before: map<Id, Message>, after: map<Id, Message>, row: Option<Id>): Option<NewRow> {
    if row.Some? && row.value !in before && row.value in after then Some(NewRow(row.value, after[row.value])) else None
  }

  function BookingInsert(row: NewRow): Outbox.Step {
    Outbox.Insert(row.id, row.message, None)
  }

  function EventInsert(row: NewRow, task: Id, at: Time): Outbox.Step {
    Outbox.Insert(row.id, row.message, Some((task, Saga.DirectCopy(row.message, at))))
  }

  ghost function Store(box: Outbox.Box, insert: Option<Outbox.Step>): Outbox.Box
    requires insert.Some? ==> Outbox.Enabled(box, insert.value)
  {
    if insert.Some? then Outbox.Apply(box, insert.value) else box
  }

  ghost predicate Fits(s: State, saga: Saga.State, step: Saga.Step, task: Id, at: Time) {
    && (var row := Added(s.saga.b.outbox, saga.b.outbox, BookingRow(step));
        row.Some? ==> Outbox.Enabled(s.bbox, BookingInsert(row.value)))
    && (var row := Added(s.saga.e.outbox, saga.e.outbox, EventRow(s.saga, saga, step));
        row.Some? ==> Outbox.Enabled(s.ebox, EventInsert(row.value, task, at)))
  }

  ghost predicate CanRun(s: State, step: Saga.Step, task: Id, at: Time) {
    Saga.Enabled(s.saga, step) && Fits(s, Saga.Apply(s.saga, step), step, task, at)
  }

  // A transaction that could not run would leave everything as it is; the lemma EveryTransactionRuns excludes this.
  ghost function Business(s: State, step: Saga.Step, task: Id, at: Time): State {
    if CanRun(s, step, task, at) then
      var saga := Saga.Apply(s.saga, step);
      var b := Added(s.saga.b.outbox, saga.b.outbox, BookingRow(step));
      var e := Added(s.saga.e.outbox, saga.e.outbox, EventRow(s.saga, saga, step));
      State(saga,
            Store(s.bbox, if b.Some? then Some(BookingInsert(b.value)) else None),
            Store(s.ebox, if e.Some? then Some(EventInsert(e.value, task, at)) else None))
    else s
  }

  ghost function Apply(s: State, step: Step): State
    requires Enabled(s, step)
  {
    match step
    case Local(b) => Business(s, b, 0, 0)
    case Deliver(_, d, task, at) => Business(s, d, task, at)
    case BookingSide(b) => s.(bbox := Outbox.Apply(s.bbox, b))
    case EventSide(b) => s.(ebox := Outbox.Apply(s.ebox, b))
  }

  ghost predicate Run(s: State, steps: seq<Step>)
    decreases steps
  {
    steps == [] || (Enabled(s, steps[0]) && Run(Apply(s, steps[0]), steps[1..]))
  }

  ghost function After(s: State, steps: seq<Step>): State
    requires Run(s, steps)
    decreases steps
  {
    if steps == [] then s else After(Apply(s, steps[0]), steps[1..])
  }

  ghost predicate Reachable(s: State) {
    exists steps :: Run(START, steps) && After(START, steps) == s
  }

  /******* Coupling *******/

  ghost predicate Coupled(s: State) {
    Outbox.Content(s.bbox.rows) == s.saga.b.outbox && Outbox.Content(s.ebox.rows) == s.saga.e.outbox
  }

  // What holds of every reachable state of the system.
  ghost predicate Good(s: State) {
    Saga.Reachable(s.saga) && Outbox.Reachable(s.bbox) && Outbox.Reachable(s.ebox) && Coupled(s)
  }

  // Whatever a log holds is a copy of an outbox row, and passes the schema check of its topic.
  lemma EntryIsDelivered(s: State, outbox: map<Id, Message>, box: Outbox.Box, i: int)
    requires Saga.Reachable(s.saga) && Outbox.Reachable(box) && Outbox.Content(box.rows) == outbox
    requires outbox == s.saga.b.outbox || outbox == s.saga.e.outbox
    requires 0 <= i < |box.log|
    ensures Saga.Delivered(outbox, box.log[i].via.row, box.log[i].message, box.log[i].message.topic)
  {
    OutboxTheorems.ReachableInv(box);
    SagaTheorems.RowsCarryTheirBooking(s.saga, box.log[i].via.row);
  }

  lemma DeliveryIsEnabled(s: State, step: Step)
    requires Good(s) && step.Deliver? && Enabled(s, step)
    ensures Saga.Enabled(s.saga, step.step)
  {
    if step.step.OnSeatsReserved? || step.step.OnSeatsRefused? {
      EntryIsDelivered(s, s.saga.e.outbox, s.ebox, step.entry);
    } else {
      EntryIsDelivered(s, s.saga.b.outbox, s.bbox, step.entry);
    }
  }

  ghost predicate WritesOnlyItsRow(s: Saga.State, step: Saga.Step)
    requires Saga.Enabled(s, step)
  {
    var s' := Saga.Apply(s, step);
    var b := Added(s.b.outbox, s'.b.outbox, BookingRow(step));
    var e := Added(s.e.outbox, s'.e.outbox, EventRow(s, s', step));
    && s'.b.outbox == (if b.Some? then s.b.outbox[b.value.id := b.value.message] else s.b.outbox)
    && s'.e.outbox == (if e.Some? then s.e.outbox[e.value.id := e.value.message] else s.e.outbox)
    && (b.Some? ==> Insertable(s.b.outbox, b.value))
    && (e.Some? ==> Insertable(s.e.outbox, e.value) && step.OnReserve?)
  }

  lemma BookingStepWritesItsRow(s: Saga.State, step: Saga.Step)
    requires Saga.Enabled(s, step) && BookingRow(step).Some?
    ensures WritesOnlyItsRow(s, step)
  {
    var s' := Saga.Apply(s, step);
    assert s'.e == s.e;
    match step
    case Create(c, id, draw) => assert s' == Saga.ApplyCreate(s, c, id, draw);
    case Cancel(c, draw) => assert s' == Saga.ApplyCancel(s, c, draw);
    case OnSeatsReserved(_, m, draw) => assert s' == Saga.ApplyReply(s, m, draw);
    case OnSeatsRefused(_, m, draw) => assert s' == Saga.ApplyReply(s, m, draw);
  }

  lemma ReserveWritesItsRow(s: Saga.State, step: Saga.Step)
    requires Saga.Enabled(s, step) && step.OnReserve?
    ensures WritesOnlyItsRow(s, step)
  {
    assert Saga.Apply(s, step).b == s.b;
  }

  lemma StepWritesOnlyItsRow(s: Saga.State, step: Saga.Step)
    requires Saga.Enabled(s, step)
    ensures WritesOnlyItsRow(s, step)
  {
    if BookingRow(step).Some? {
      BookingStepWritesItsRow(s, step);
    } else if step.OnReserve? {
      ReserveWritesItsRow(s, step);
    } else {
      var s' := Saga.Apply(s, step);
      assert s'.b.outbox == s.b.outbox && s'.e.outbox == s.e.outbox;
    }
  }

  ghost predicate Matches(rows: Outbox.Table, outbox: map<Id, Message>) {
    rows.Keys == outbox.Keys && forall r :: r in rows ==> rows[r].message == outbox[r]
  }

  lemma ContentMatches(rows: Outbox.Table, outbox: map<Id, Message>)
    ensures Outbox.Content(rows) == outbox <==> Matches(rows, outbox)
  {
  }

  // Storing an insertable row keeps a box and an outbox together.
  lemma StoreCouples(box: Outbox.Box, outbox: map<Id, Message>, row: NewRow, insert: Outbox.Step)
    requires Outbox.Content(box.rows) == outbox && Insertable(outbox, row)
    requires insert.Insert? && insert.id == row.id && insert.message == row.message
    requires insert.task.Some? ==> insert.task.value.0 !in box.direct && insert.task.value.1.SameContent(row.message)
    ensures Outbox.Enabled(box, insert)
    ensures Outbox.Content(Outbox.Apply(box, insert).rows) == outbox[row.id := row.message]
  {
    ContentMatches(box.rows, outbox);
    assert Outbox.CanInsert(box.rows, row.id, row.message);
    ContentMatches(Outbox.Apply(box, insert).rows, outbox[row.id := row.message]);
  }

  lemma TransactionRuns(s: State, step: Saga.Step, task: Id, at: Time)
    requires Coupled(s) && Saga.Enabled(s.saga, step) && (step.OnReserve? ==> task !in s.ebox.direct)
    ensures CanRun(s, step, task, at) && Coupled(Business(s, step, task, at))
  {
    StepWritesOnlyItsRow(s.saga, step);
    var saga := Saga.Apply(s.saga, step);
    var b := Added(s.saga.b.outbox, saga.b.outbox, BookingRow(step));
    var e := Added(s.saga.e.outbox, saga.e.outbox, EventRow(s.saga, saga, step));
    if b.Some? { StoreCouples(s.bbox, s.saga.b.outbox, b.value, BookingInsert(b.value)); }
    if e.Some? { StoreCouples(s.ebox, s.saga.e.outbox, e.value, EventInsert(e.value, task, at)); }
  }

  // No delivery is refused by the schema check and no transaction by a unique index.
  lemma EveryTransactionRuns(s: State, step: Step)
    requires Good(s) && Enabled(s, step) && (step.Local? || step.Deliver?)
    ensures step.Local? ==> CanRun(s, step.step, 0, 0)
    ensures step.Deliver? ==> CanRun(s, step.step, step.task, step.at)
    ensures Coupled(Apply(s, step))
  {
    if step.Local? {
      TransactionRuns(s, step.step, 0, 0);
    } else {
      DeliveryIsEnabled(s, step);
      TransactionRuns(s, step.step, step.task, step.at);
    }
  }

  /******* Refinement *******/

  lemma BoxStepCouples(box: Outbox.Box, step: Outbox.Step)
    requires Outbox.Reachable(box) && !step.Insert? && Outbox.Enabled(box, step)
    ensures Outbox.Reachable(Outbox.Apply(box, step))
    ensures Outbox.Content(Outbox.Apply(box, step).rows) == Outbox.Content(box.rows)
  {
    OutboxTheorems.ReachStep(box, step);
    OutboxTheorems.ReachableInv(box);
    OutboxInvariant.StepKeepsContent(box, step);
  }

  lemma StoreReaches(box: Outbox.Box, insert: Option<Outbox.Step>)
    requires Outbox.Reachable(box) && (insert.Some? ==> Outbox.Enabled(box, insert.value))
    ensures Outbox.Reachable(Store(box, insert))
  {
    if insert.Some? { OutboxTheorems.ReachStep(box, insert.value); }
  }

  lemma BusinessReaches(s: State, step: Saga.Step, task: Id, at: Time)
    requires Good(s) && CanRun(s, step, task, at)
    ensures var s' := Business(s, step, task, at);
            Saga.Reachable(s'.saga) && Outbox.Reachable(s'.bbox) && Outbox.Reachable(s'.ebox)
  {
    SagaTheorems.ReachStep(s.saga, step);
    var saga := Saga.Apply(s.saga, step);
    var b := Added(s.saga.b.outbox, saga.b.outbox, BookingRow(step));
    var e := Added(s.saga.e.outbox, saga.e.outbox, EventRow(s.saga, saga, step));
    StoreReaches(s.bbox, if b.Some? then Some(BookingInsert(b.value)) else None);
    StoreReaches(s.ebox, if e.Some? then Some(EventInsert(e.value, task, at)) else None);
  }

  lemma StepKeepsGood(s: State, step: Step)
    requires Good(s) && Enabled(s, step)
    ensures Good(Apply(s, step))
  {
    match step
    case Local(b) =>
      EveryTransactionRuns(s, step);
      BusinessReaches(s, b, 0, 0);
    case Deliver(_, d, task, at) =>
      EveryTransactionRuns(s, step);
      BusinessReaches(s, d, task, at);
    case BookingSide(b) => BoxStepCouples(s.bbox, b);
    case EventSide(b) => BoxStepCouples(s.ebox, b);
  }

  lemma {:induction false} RunKeepsGood(s: State, steps: seq<Step>)
    requires Good(s) && Run(s, steps)
    ensures Good(After(s, steps))
    decreases steps
  {
    if steps != [] {
      StepKeepsGood(s, steps[0]);
      RunKeepsGood(Apply(s, steps[0]), steps[1..]);
    }
  }

  // The system refines the saga and both outbox protocols, and the two views of each outbox agree.
  lemma SystemRefines(s: State)
    requires Reachable(s)
    ensures Saga.Reachable(s.saga) && Outbox.Reachable(s.bbox) && Outbox.Reachable(s.ebox)
    ensures Outbox.Content(s.bbox.rows) == s.saga.b.outbox && Outbox.Content(s.ebox.rows) == s.saga.e.outbox
  {
    var steps :| Run(START, steps) && After(START, steps) == s;
    assert Saga.Run(Saga.START, []) && Saga.After(Saga.START, []) == Saga.START;
    assert Outbox.Run(Outbox.EMPTY, []) && Outbox.After(Outbox.EMPTY, []) == Outbox.EMPTY;
    RunKeepsGood(START, steps);
  }

  /******* End to end *******/

  // Whatever reaches a consumer comes from a row, with the same identity, correlation and payload.
  lemma LogsAreTruthful(s: State, i: nat)
    requires Reachable(s)
    ensures i < |s.bbox.log| ==>
              && s.bbox.log[i].via.row in s.saga.b.outbox
              && s.bbox.log[i].message.SameContent(s.saga.b.outbox[s.bbox.log[i].via.row])
    ensures i < |s.ebox.log| ==>
              && s.ebox.log[i].via.row in s.saga.e.outbox
              && s.ebox.log[i].message.SameContent(s.saga.e.outbox[s.ebox.log[i].via.row])
  {
    SystemRefines(s);
    if i < |s.bbox.log| { EntryIsDelivered(s, s.saga.b.outbox, s.bbox, i); }
    if i < |s.ebox.log| { EntryIsDelivered(s, s.saga.e.outbox, s.ebox, i); }
  }

  // Booking-service never hears both a success and a failure about one booking, however often either is published.
  lemma RepliesDoNotConflict(s: State, i: nat, j: nat)
    requires Reachable(s) && i < |s.ebox.log| && j < |s.ebox.log|
    requires s.ebox.log[i].message.envelope.payload.bookingId == s.ebox.log[j].message.envelope.payload.bookingId
    ensures s.ebox.log[i].message.SameContent(s.ebox.log[j].message)
  {
    SystemRefines(s);
    LogsAreTruthful(s, i);
    LogsAreTruthful(s, j);
    SagaTheorems.ReachableCore(s.saga);
    assert SagaInvariant.EventRowOk(s.saga, s.ebox.log[i].via.row);
    assert SagaInvariant.EventRowOk(s.saga, s.ebox.log[j].via.row);
  }

  // A cancellation read off the log gives its seats back, or was carried out before.
  lemma CancellationsAreCarriedOut(s: State, i: nat)
    requires Reachable(s) && i < |s.bbox.log| && s.bbox.log[i].message.topic == BookingCancelled
    ensures var m := s.bbox.log[i].message;
            && m.WellTyped()
            && if m.Key() in s.saga.e.inbox then Saga.ReleaseTx(s.saga, m).result == ReleaseDuplicate
               else Saga.ReleaseTx(s.saga, m).result.SeatsReleased?
  {
    SystemRefines(s);
    EntryIsDelivered(s, s.saga.b.outbox, s.bbox, i);
    SagaTheorems.ReleaseIsNeverRefused(s.saga, s.bbox.log[i].via.row, s.bbox.log[i].message);
  }
}
