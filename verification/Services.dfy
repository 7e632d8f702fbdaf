/**
 The service methods that span several awaits, run on the repositories: createBooking with rivals between its lookup and
 its transaction, cancelBooking with rivals between its read and its transaction, and the reservation handler with its
 own publish and mark, racing the dispatchers and cut off at any await. Waking the dispatcher afterwards is
 DispatchPending of module Dispatcher.
 */
module Services {
  import opened Common
  import opened Messages
  import opened Bookings
  import opened Inventory
  import opened Notifications
  import Outbox
  import OutboxTheorems
  import Saga
  import opened Dispatcher
  import opened Repositories

  /******* booking-service *******/

  // A transaction of some other request or consumer.
  datatype Rival =
    | Creates(id: Id, request: CreateRequest, row: NewRow)
    | Cancels(id: Id, row: NewRow)
    | Replies(messageId: Id, id: Id, eventId: Id, quantity: Option<int>, status: Status, row: NewRow)

  function AfterRival(db: BookingDb, rival: Rival): BookingDb {
    match rival
    case Creates(id, request, row) => CreateBookingWithOutbox(db, id, request, row).db
    case Cancels(id, row) => CancelBookingWithOutbox(db, id, row).db
    case Replies(messageId, id, eventId, quantity, status, row) =>
      ProcessReply(db, messageId, id, eventId, quantity, status, row).db
  }

  // Every booking with a non-empty key has its idempotency record; see SagaTheorems.RecordsAreComplete.
  ghost predicate KeysRecorded(db: BookingDb) {
    forall b :: b in db.bookings && db.bookings[b].key.Some? && db.bookings[b].key.value != "" ==>
      db.bookings[b].key.value in db.records
  }

  lemma RivalKeepsKeysRecorded(db: BookingDb, rival: Rival)
    requires KeysRecorded(db)
    ensures KeysRecorded(AfterRival(db, rival))
  {
  }

  function AfterRivals(db: BookingDb, rivals: seq<Rival>): BookingDb
    decreases rivals
  {
    if rivals == [] then db else AfterRivals(AfterRival(db, rivals[0]), rivals[1..])
  }

  lemma {:induction false} RivalsKeepKeysRecorded(db: BookingDb, rivals: seq<Rival>)
    requires KeysRecorded(db)
    ensures KeysRecorded(AfterRivals(db, rivals))
    decreases rivals
  {
    if rivals != [] {
      RivalKeepsKeysRecorded(db, rivals[0]);
      RivalsKeepKeysRecorded(AfterRival(db, rivals[0]), rivals[1..]);
    }
  }

  lemma {:induction false} AfterRivalsSnoc(db: BookingDb, rivals: seq<Rival>, last: Rival)
    ensures AfterRivals(db, rivals + [last]) == AfterRival(AfterRivals(db, rivals), last)
    decreases rivals
  {
    if rivals == [] {
      assert [last][1..] == [];
    } else {
      assert (rivals + [last])[1..] == rivals[1..] + [last];
      AfterRivalsSnoc(AfterRival(db, rivals[0]), rivals[1..], last);
    }
  }

  // Whatever others do to a booking, its terms stay.
  lemma {:induction false} RivalsKeepTerms(db: BookingDb, rivals: seq<Rival>, b: Id)
    requires b in db.bookings
    ensures b in AfterRivals(db, rivals).bookings
    ensures AfterRivals(db, rivals).bookings[b].(status := Pending) == db.bookings[b].(status := Pending)
    decreases rivals
  {
    if rivals != [] { RivalsKeepTerms(AfterRival(db, rivals[0]), rivals[1..], b); }
  }

  // The identifiers a request draws are used by nobody else.
  ghost predicate Unused(db: BookingDb, id: Id, row: NewRow) {
    !IdTaken(db, id) && Insertable(db.outbox, row)
  }

  // Whoever wins, a keyed request is answered from the record its key has in the end.
  lemma AnswerIsTheRecord(db: BookingDb, id: Id, request: CreateRequest, row: NewRow)
    requires KeysRecorded(db) && Unused(db, id, row) && HasKey(request) && request.quantity > 0
    ensures var tx := CreateBookingWithOutbox(db, id, request, row);
            && !Lookup(tx.db, request).Unanswered?
            && (tx.result.Created? ==> Lookup(tx.db, request) == Returned(tx.result.dto))
            && (tx.result.UniqueViolation? ==> Lookup(db, request) == Lookup(tx.db, request))
            && !tx.result.CheckViolation?
  {
  }

  class BookingsService {
    const repository: BookingRepository

    constructor (repository: BookingRepository)
      ensures this.repository == repository
    {
      this.repository := repository;
    }

    method LetRivalsIn(rivals: seq<Rival>, now: Time)
      modifies repository, repository.table
      ensures repository.Db() == AfterRivals(old(repository.Db()), rivals)
    {
      var i := 0;
      while i < |rivals|
        invariant 0 <= i <= |rivals|
        invariant repository.Db() == AfterRivals(old(repository.Db()), rivals[..i])
      {
        AfterRivalsSnoc(old(repository.Db()), rivals[..i], rivals[i]);
        assert rivals[..i + 1] == rivals[..i] + [rivals[i]];
        match rivals[i] {
          case Creates(id, request, row) =>
            var _, _ := repository.CreateBooking(id, request, row, now);
          case Cancels(id, row) =>
            var _ := repository.Cancel(id, row, now);
          case Replies(messageId, id, eventId, quantity, status, row) =>
            var _ := repository.Reply(messageId, id, eventId, quantity, status, row, now);
        }
        i := i + 1;
      }
      assert rivals[..i] == rivals;
    }

    // createBooking: the lookup, whatever rivals commit meanwhile, then the transaction. Unanswered stands for an error.
    method CreateBooking(request: CreateRequest, id: Id, draw: Saga.Draw, rivals: seq<Rival>, now: Time)
      returns (answer: Answer)
      requires KeysRecorded(repository.Db())
      requires Unused(AfterRivals(repository.Db(), rivals), id,
                      NewRow(draw.row, Saga.ReserveMessage(id, request, draw.messageId, draw.at)))
      modifies repository, repository.table
      ensures HasKey(request) && request.quantity > 0 ==>
                !answer.Unanswered? && answer == Lookup(repository.Db(), request)
      ensures request.key.None? && request.quantity > 0 ==>
                var booking := Booking(request.userId, request.eventId, request.quantity, Pending, None);
                && answer == Returned(BookingDto(id, booking))
                && id in repository.bookings && repository.bookings[id] == booking
      ensures request.quantity <= 0 ==> answer == Lookup(old(repository.Db()), request)
      ensures var own := Creates(id, request, NewRow(draw.row, Saga.ReserveMessage(id, request, draw.messageId, draw.at)));
              repository.Db() == if Lookup(old(repository.Db()), request).Unanswered?
                                 then AfterRivals(old(repository.Db()), rivals + [own]) else old(repository.Db())
      ensures KeysRecorded(repository.Db())
    {
      if request.key.Some? && request.key.value != "" {
        if request.key.value in repository.records {
          var existing := repository.records[request.key.value];
          return if existing.fingerprint != request.fingerprint then Reused else Returned(existing.response);
        }
      }
      ghost var start := repository.Db();
      LetRivalsIn(rivals, now);
      RivalsKeepKeysRecorded(start, rivals);
      var row := NewRow(draw.row, Saga.ReserveMessage(id, request, draw.messageId, draw.at));
      AfterRivalsSnoc(start, rivals, Creates(id, request, row));
      if HasKey(request) && request.quantity > 0 { AnswerIsTheRecord(repository.Db(), id, request, row); }
      RivalKeepsKeysRecorded(repository.Db(), Creates(id, request, row));
      var _, given := repository.CreateBooking(id, request, row, now);
      return given;
    }

    // cancelBooking: the read, whatever rivals commit meanwhile, then the guarded transaction with a message composed from
    // what was read. Others may have cancelled the booking by then; its terms are the same. The answer is the booking as it is
    // stored in the end.
    method CancelBooking(id: Id, draw: Saga.Draw, rivals: seq<Rival>, now: Time) returns (result: CancelResult)
      modifies repository, repository.table
      ensures id !in old(repository.bookings) ==> result == CancelNotFound && repository.Db() == old(repository.Db())
      ensures id in old(repository.bookings) ==>
                && var message := Saga.CancelMessage(id, old(repository.bookings)[id], draw.messageId, draw.at);
                   Tx(repository.Db(), result)
                   == CancelBookingWithOutbox(AfterRivals(old(repository.Db()), rivals), id, NewRow(draw.row, message))
      ensures result.CancelDone? ==>
                && id in repository.bookings && result.dto == BookingDto(id, repository.bookings[id])
                && repository.bookings[id] == old(repository.bookings)[id].(status := Bookings.Cancelled)
                && draw.row in repository.table.rows
                && repository.table.rows[draw.row].message.envelope.payload
                   == SeatsPayload(id, repository.bookings[id].eventId, repository.bookings[id].quantity)
    {
      if id !in repository.bookings { return CancelNotFound; }
      var seen := repository.bookings[id];
      ghost var start := repository.Db();
      LetRivalsIn(rivals, now);
      RivalsKeepTerms(start, rivals, id);
      result := repository.Cancel(id, NewRow(draw.row, Saga.CancelMessage(id, seen, draw.messageId, draw.at)), now);
    }
  }

  /******* event-service *******/

  class InventoryService {
    const repository: EventRepository
    const world: World

    constructor (repository: EventRepository, world: World)
      requires repository.table == world.table
      ensures this.repository == repository && this.world == world
    {
      this.repository, this.world := repository, world;
    }

    // The transaction, and the reply that the handler now carries in memory.
    method Decide(m: Message, success: Saga.Draw, failure: Saga.Draw, at: Time, task: Id)
      returns (result: ReserveResult, row: Option<Id>, ghost trace: seq<Outbox.Step>)
      requires m.topic.ReserveSeats? && m.WellTyped()
      requires repository.table == world.table && task !in world.direct
      modifies repository, world, world.table
      ensures Tx(repository.Db(), result) == Transaction(old(repository.Db()), m, success, failure)
      ensures Does(old(world.View()), trace, world.View(), task, trace)
      ensures row.Some? <==> result.SeatsTaken? || result.SeatsRefused?
      ensures row.None? ==> trace == []
      ensures row.Some? ==>
                && row == Some(result.row) && |trace| == 1 && trace[0].Insert? && trace[0].id == row.value
                && task in world.direct && world.direct[task].row == row.value && !world.direct[task].acked
      ensures row.Some? ==>
                && trace[0] == Stores(m, result, success, failure, at, task, m.envelope.payload.eventId in old(repository.events))
                && row.value in world.table.rows && world.table.rows[row.value].message == trace[0].message
    {
      ghost var before := world.View();
      var f := FailureRow(failure.row, failure.messageId, m.envelope.correlationId, m.envelope.payload.bookingId, failure.at);
      ContentOf(world.table.rows);
      result := repository.Reserve(m.Key(), m.envelope.payload.eventId, m.envelope.payload.quantity,
                                   NewRow(success.row, Saga.SuccessMessage(m, success.messageId, success.at)), f, world.now);
      if !result.SeatsTaken? && !result.SeatsRefused? {
        row, trace := None, [];
        return;
      }
      row := Some(result.row);
      var stored := world.table.rows[result.row].message;
      var copy := Saga.DirectCopy(stored, at);
      ContentAdded(before.rows, NewRow(result.row, stored), before.now);
      world.direct := world.direct[task := Outbox.Direct(result.row, copy, false)];
      world.history := world.history[result.row := []];
      trace := [Outbox.Insert(result.row, stored, Some((task, copy)))];
      assert trace[1..] == [];
    }

    // The publish of the handler, once others have had their turns.
    method Announce(task: Id, ack: Outbox.Ack, before: seq<Outbox.Step>) returns (ghost trace: seq<Outbox.Step>)
      requires task in world.direct && !world.direct[task].acked
      modifies world, world.table
      ensures Does(old(world.View()), trace, world.View(), task, [Outbox.DirectPublish(task, ack)])
      ensures Outbox.Content(world.table.rows) == Outbox.Content(old(world.table.rows))
      ensures ack.Acked? ==> task in world.direct && world.direct[task].acked
    {
      ghost var s0 := world.View();
      trace := world.TakeTurns(before, TheTask(task));
      OthersOwnNothing(trace, task);
      ghost var s1 := world.View();
      ghost var step := Outbox.DirectPublish(task, ack);
      var copy := world.direct[task];
      if !ack.Rejected? {
        world.log := world.log + [Outbox.Entry(copy.message, Outbox.DirectPath(copy.row))];
      }
      world.direct := if ack.Acked? then world.direct[task := copy.(acked := true)] else world.direct - {task};
      DoesThen(s0, trace, s1, task, [], step);
      trace := trace + [step];
    }

    // The unowned mark; a statement that never gets the row lock ends in an error without effect.
    method Settle(task: Id, call: Outbox.Call, before: seq<Outbox.Step>)
      returns (ghost trace: seq<Outbox.Step>, ghost mark: Outbox.Step)
      requires task in world.direct && world.direct[task].acked
      modifies world, world.table
      ensures MarkDue(old(world.View()), trace, task, call) && trace[|trace| - 1] == mark
      ensures Does(old(world.View()), trace, world.View(), task, [mark])
      ensures Outbox.Content(world.table.rows) == Outbox.Content(old(world.table.rows))
    {
      ghost var s0 := world.View();
      trace := world.TakeTurns(before, TheTask(task));
      OthersOwnNothing(trace, task);
      ghost var s1 := world.View();
      var row := world.direct[task].row;
      MarkKeepsContent(world.table.rows, row);
      var done := if row in Outbox.Locked(world.View()) then Outbox.Lost else call;
      mark := Outbox.DirectMark(task, done);
      if !done.Lost? {
        world.table.MarkOutboxPublished(row, None);
      }
      world.direct := world.direct - {task};
      DoesThen(s0, trace, s1, task, [], mark);
      assert (trace + [mark])[..|trace|] == trace;
      trace := trace + [mark];
    }

    // reserveSeats, surviving `awaits` of its awaits, while dispatchers and others work on the same outbox. The cache
    // delete between commit and publish fails open.
    method ReserveSeats(m: Message, success: Saga.Draw, failure: Saga.Draw, at: Time, task: Id, ack: Outbox.Ack,
                        call: Outbox.Call, awaits: nat, beforePublish: seq<Outbox.Step>, beforeMark: seq<Outbox.Step>)
      returns (result: ReserveResult, ghost trace: seq<Outbox.Step>, ghost own: seq<Outbox.Step>)
      requires m.topic.ReserveSeats? && m.WellTyped()
      requires repository.table == world.table && task !in world.direct
      modifies repository, world, world.table
      ensures Tx(repository.Db(), result) == Transaction(old(repository.Db()), m, success, failure)
      ensures Does(old(world.View()), trace, world.View(), task, own)
      ensures if result.SeatsTaken? || result.SeatsRefused?
              then HandlerTrace(own, result.row, task, ack, awaits)
                   && (|own| == 3 ==> MarkDue(old(world.View()), trace, task, call) && trace[|trace| - 1] == own[2])
                   && own[0] == Stores(m, result, success, failure, at, task,
                                       m.envelope.payload.eventId in old(repository.events))
                   && result.row in repository.Db().outbox && repository.Db().outbox[result.row] == own[0].message
              else trace == []
    {
      ghost var s0 := world.View();
      var row;
      result, row, trace := Decide(m, success, failure, at, task);
      own := trace;
      if row.None? { return; }
      ghost var s1 := world.View();
      ghost var more, rest := AnnounceAndSettle(task, ack, call, awaits, beforePublish, beforeMark);
      DoesJoin(s0, trace, s1, more, world.View(), task, own, rest);
      if |rest| == 2 { MarkComesLast(s0, trace, s1, more, task, call); }
      assert (own + rest)[1..] == rest;
      trace, own := trace + more, own + rest;
    }

    // What reserveSeats does after its transaction.
    method AnnounceAndSettle(task: Id, ack: Outbox.Ack, call: Outbox.Call, awaits: nat,
                             beforePublish: seq<Outbox.Step>, beforeMark: seq<Outbox.Step>)
      returns (ghost trace: seq<Outbox.Step>, ghost own: seq<Outbox.Step>)
      requires task in world.direct && !world.direct[task].acked
      modifies world, world.table
      ensures Does(old(world.View()), trace, world.View(), task, own) && PublishAndMark(own, task, ack, awaits)
      ensures |own| == 2 ==> MarkDue(old(world.View()), trace, task, call) && trace[|trace| - 1] == own[1]
      ensures Outbox.Content(world.table.rows) == Outbox.Content(old(world.table.rows))
    {
      trace, own := [], [];
      if awaits == 0 { return; }
      ghost var s0 := world.View();
      trace := Announce(task, ack, beforePublish);
      own := [Outbox.DirectPublish(task, ack)];
      if !ack.Acked? || awaits == 1 { return; }
      ghost var s1 := world.View();
      ghost var more, mark := Settle(task, call, beforeMark);
      DoesJoin(s0, trace, s1, more, world.View(), task, own, [mark]);
      MarkComesLast(s0, trace, s1, more, task, call);
      trace, own := trace + more, own + [mark];
    }

    // releaseSeats; None stands for the error that an invalid quantity raises before anything is written.
    method ReleaseSeats(m: Message) returns (result: Option<ReleaseResult>)
      requires m.topic.BookingCancelled? && m.envelope.payload.SeatsPayload?
      modifies repository
      ensures result.None? <==> m.envelope.payload.quantity <= 0
      ensures result.None? ==> repository.Db() == old(repository.Db())
      ensures result.Some? ==>
                Tx(repository.Db(), result.value)
                == ProcessReleaseSeats(old(repository.Db()), m.Key(), m.envelope.payload.eventId, m.envelope.payload.quantity)
      ensures result.Some? ==> m.Key() in repository.inbox
    {
      if m.envelope.payload.quantity <= 0 { return None; }
      var released := repository.Release(m.Key(), m.envelope.payload.eventId, m.envelope.payload.quantity);
      return Some(released);
    }
  }

  /******* notification-service *******/

  class NotificationConsumer {
    const sink: NotificationRepository

    constructor (sink: NotificationRepository)
      ensures this.sink == sink
    {
      this.sink := sink;
    }

    // handleBookingConfirmed, handleBookingFailed and handleBookingCancelled: afterwards the message has its notification,
    // the one of its first delivery, and no other notification has changed.
    method Handle(m: Message) returns (stored: bool)
      requires Notifies(m.topic) && sink.Complete()
      modifies sink
      ensures sink.Complete() && sink.inbox == old(sink.inbox) + {m.Key()}
      ensures stored <==> m.Key() !in old(sink.inbox)
      ensures m.Key() in sink.notes && (stored ==> sink.notes[m.Key()] == NoteOf(m))
      ensures forall n :: n in old(sink.notes) ==> n in sink.notes && sink.notes[n] == old(sink.notes)[n]
    {
      stored := sink.Append(m.Key(), NoteOf(m));
    }
  }

  // A run of the outbox protocol in which the handler takes these steps of its own.
  ghost predicate Does(s: Outbox.Box, trace: seq<Outbox.Step>, s': Outbox.Box, task: Id, own: seq<Outbox.Step>) {
    Outbox.Run(s, trace) && Outbox.After(s, trace) == s' && Own(trace, task) == own
  }

  lemma DoesJoin(s: Outbox.Box, a: seq<Outbox.Step>, t: Outbox.Box, b: seq<Outbox.Step>, u: Outbox.Box, task: Id,
                 x: seq<Outbox.Step>, y: seq<Outbox.Step>)
    requires Does(s, a, t, task, x) && Does(t, b, u, task, y)
    ensures Does(s, a + b, u, task, x + y)
  {
    OutboxTheorems.RunJoin(s, a, b);
    OwnAdds(a, b, task);
  }

  lemma DoesThen(s: Outbox.Box, a: seq<Outbox.Step>, t: Outbox.Box, task: Id, x: seq<Outbox.Step>, step: Outbox.Step)
    requires Does(s, a, t, task, x) && Outbox.Enabled(t, step) && BelongsTo(step, TheTask(task))
    ensures Does(s, a + [step], Outbox.Apply(t, step), task, x + [step])
  {
    assert [step][1..] == [];
    DoesJoin(s, a, t, [step], Outbox.Apply(t, step), task, x, [step]);
  }

  // The handler's own steps in a run.
  function Own(trace: seq<Outbox.Step>, task: Id): seq<Outbox.Step> {
    if trace == [] then [] else OwnFirst(trace[0], task) + Own(trace[1..], task)
  }

  function OwnFirst(step: Outbox.Step, task: Id): seq<Outbox.Step> {
    if BelongsTo(step, TheTask(task)) then [step] else []
  }

  lemma {:induction false} OwnAdds(a: seq<Outbox.Step>, b: seq<Outbox.Step>, task: Id)
    ensures Own(a + b, task) == Own(a, task) + Own(b, task)
    decreases a
  {
    if a == [] {
      assert a + b == b;
    } else {
      assert (a + b)[0] == a[0] && (a + b)[1..] == a[1..] + b;
      OwnAdds(a[1..], b, task);
      Associative(OwnFirst(a[0], task), Own(a[1..], task), Own(b, task));
    }
  }

  lemma {:induction false} OthersOwnNothing(trace: seq<Outbox.Step>, task: Id)
    requires forall step :: step in trace ==> !BelongsTo(step, TheTask(task))
    ensures Own(trace, task) == []
    decreases trace
  {
    if trace != [] {
      assert trace[0] in trace && forall step :: step in trace[1..] ==> step in trace;
      OthersOwnNothing(trace[1..], task);
    }
  }

  lemma MarkKeepsContent(rows: Outbox.Table, id: Id)
    ensures Outbox.Content(Outbox.MarkPublished(rows, id, None)) == Outbox.Content(rows)
  {
  }

  function Transaction(db: EventDb, m: Message, success: Saga.Draw, failure: Saga.Draw): Tx<EventDb, ReserveResult>
    requires m.topic.ReserveSeats? && m.WellTyped()
  {
    var p := m.envelope.payload;
    ProcessReserveSeats(db, m.Key(), p.eventId, p.quantity,
                        NewRow(success.row, Saga.SuccessMessage(m, success.messageId, success.at)),
                        FailureRow(failure.row, failure.messageId, m.envelope.correlationId, p.bookingId, failure.at),
                        p.eventId in db.events)
  }

  // The last step of the run is the mark of the task; it turns out as its call does, unless a claim statement has the row
  // locked just then: it ends in an error without effect.
  ghost predicate MarkDue(s: Outbox.Box, trace: seq<Outbox.Step>, task: Id, call: Outbox.Call) {
    && trace != [] && Outbox.Run(s, trace[..|trace| - 1])
    && IsMarkDue(Outbox.After(s, trace[..|trace| - 1]), trace[|trace| - 1], task, call)
  }

  ghost predicate IsMarkDue(s: Outbox.Box, step: Outbox.Step, task: Id, call: Outbox.Call) {
    && task in s.direct
    && step == Outbox.DirectMark(task, if s.direct[task].row in Outbox.Locked(s) then Outbox.Lost else call)
  }

  // The handler's mark publishes its row for good, if it takes effect at all.
  lemma MarkPublishesForGood(s: Outbox.Box, trace: seq<Outbox.Step>, task: Id, call: Outbox.Call, later: seq<Outbox.Step>)
    requires Outbox.Reachable(s) && Outbox.Run(s, trace) && MarkDue(s, trace, task, call) && call != Outbox.Lost
    requires Outbox.Run(Outbox.After(s, trace), later)
    ensures var t := Outbox.After(s, trace[..|trace| - 1]);
            var row := t.direct[task].row;
            var end := Outbox.After(Outbox.After(s, trace), later);
            row !in Outbox.Locked(t) ==> row in end.rows && end.rows[row].status == Outbox.Published
  {
    var n := |trace| - 1;
    var t := Outbox.After(s, trace[..n]);
    assert trace == trace[..n] + [trace[n]];
    MarkIsLast(s, trace[..n], trace[n]);
    ReachRun(s, trace[..n]);
    if t.direct[task].row !in Outbox.Locked(t) {
      MarkPublishes(t, task, call);
      OutboxTheorems.ReachStep(t, trace[n]);
      OutboxTheorems.ReachableInv(Outbox.Apply(t, trace[n]));
      OutboxTheorems.PublishedIsFinal(Outbox.Apply(t, trace[n]), later, t.direct[task].row);
    }
  }

  lemma MarkIsLast(s: Outbox.Box, a: seq<Outbox.Step>, step: Outbox.Step)
    requires Outbox.Run(s, a) && Outbox.Run(s, a + [step])
    ensures Outbox.Enabled(Outbox.After(s, a), step)
    ensures Outbox.After(s, a + [step]) == Outbox.Apply(Outbox.After(s, a), step)
    decreases a
  {
    if a != [] {
      assert (a + [step])[0] == a[0] && (a + [step])[1..] == a[1..] + [step];
      MarkIsLast(Outbox.Apply(s, a[0]), a[1..], step);
    } else {
      assert a + [step] == [step] && [step][1..] == [];
    }
  }

  lemma {:induction false} ReachRun(s: Outbox.Box, steps: seq<Outbox.Step>)
    requires Outbox.Reachable(s) && Outbox.Run(s, steps)
    ensures Outbox.Reachable(Outbox.After(s, steps))
    decreases steps
  {
    if steps != [] {
      OutboxTheorems.ReachStep(s, steps[0]);
      ReachRun(Outbox.Apply(s, steps[0]), steps[1..]);
    }
  }

  lemma MarkPublishes(s: Outbox.Box, task: Id, call: Outbox.Call)
    requires Outbox.Reachable(s) && task in s.direct && call != Outbox.Lost && s.direct[task].row !in Outbox.Locked(s)
    requires Outbox.Enabled(s, Outbox.DirectMark(task, call))
    ensures var row, s' := s.direct[task].row, Outbox.Apply(s, Outbox.DirectMark(task, call));
            row in s'.rows && s'.rows[row].status == Outbox.Published
  {
    OutboxTheorems.ReachableInv(s);
  }

  lemma MarkComesLast(s: Outbox.Box, a: seq<Outbox.Step>, t: Outbox.Box, b: seq<Outbox.Step>, task: Id, call: Outbox.Call)
    requires Outbox.Run(s, a) && Outbox.After(s, a) == t && MarkDue(t, b, task, call)
    ensures MarkDue(s, a + b, task, call) && (a + b)[|a + b| - 1] == b[|b| - 1]
  {
    AllButLast(a, b);
    OutboxTheorems.RunJoin(s, a, b[..|b| - 1]);
  }

  lemma AllButLast(a: seq<Outbox.Step>, b: seq<Outbox.Step>)
    requires b != []
    ensures (a + b)[..|a + b| - 1] == a + b[..|b| - 1] && (a + b)[|a + b| - 1] == b[|b| - 1]
  {
  }

  // The reply to a reserve message: the seats that were taken, or why not.
  function ReplyTo(m: Message, taken: bool, known: bool, messageId: Id, at: Time): Message
    requires m.envelope.payload.ReservePayload?
  {
    var p := m.envelope.payload;
    Message(if taken then SeatsReserved else SeatReservationFailed,
            Envelope(messageId, m.envelope.correlationId, at,
                     if taken then SeatsPayload(p.bookingId, p.eventId, p.quantity)
                     else FailurePayload(p.bookingId, p.eventId, if known then InsufficientSeats else EventNotFound)))
  }

  // What the handler's transaction adds to the outbox, and the copy it carries on: the same success, or a second envelope of
  // the refusal.
  function Stores(m: Message, result: ReserveResult, success: Saga.Draw, failure: Saga.Draw, at: Time, task: Id, known: bool)
    : Outbox.Step
    requires m.envelope.payload.ReservePayload?
  {
    if result.SeatsTaken? then
      Outbox.Insert(success.row, ReplyTo(m, true, known, success.messageId, success.at),
                    Some((task, ReplyTo(m, true, known, success.messageId, success.at))))
    else
      Outbox.Insert(failure.row, ReplyTo(m, false, known, failure.messageId, failure.at),
                    Some((task, ReplyTo(m, false, known, failure.messageId, at))))
  }

  // Commit, publish, mark: in this order, and never a mark without an acknowledged publish.
  ghost predicate HandlerTrace(trace: seq<Outbox.Step>, row: Id, task: Id, ack: Outbox.Ack, awaits: nat) {
    trace != [] && trace[0].Insert? && trace[0].id == row && PublishAndMark(trace[1..], task, ack, awaits)
  }

  ghost predicate PublishAndMark(steps: seq<Outbox.Step>, task: Id, ack: Outbox.Ack, awaits: nat) {
    && |steps| == (if awaits == 0 then 0 else if awaits == 1 || !ack.Acked? then 1 else 2)
    && (|steps| >= 1 ==> steps[0] == Outbox.DirectPublish(task, ack))
    && (|steps| == 2 ==> steps[1].DirectMark? && steps[1].direct == task)
  }
}
