/**
 The repositories as classes over their tables. A transaction works on copies and commits them in one assignment, so a
 violated constraint leaves the tables as they were. Every method is proved against the transaction function that the
 saga is built from; the outbox row it adds is a new pending row.
 */
module Repositories {
  import opened Common
  import opened Messages
  import opened Bookings
  import opened Inventory
  import opened Notifications
  import Outbox
  import opened Dispatcher

  /******* Outbox inserts *******/

  ghost predicate RowAdded(rows: Outbox.Table, rows': Outbox.Table, row: NewRow, now: Time) {
    rows' == rows[row.id := Outbox.Row(row.message, Outbox.Pending, 0, now, None, None, now)]
  }

  lemma ContentOf(rows: Outbox.Table)
    ensures Outbox.Content(rows).Keys == rows.Keys
    ensures forall r :: r in rows ==> Outbox.Content(rows)[r] == rows[r].message
  {
  }

  lemma ContentAdded(rows: Outbox.Table, row: NewRow, now: Time)
    ensures Outbox.Content(rows[row.id := Outbox.NewRow(row.message, now)]) == Outbox.Content(rows)[row.id := row.message]
    ensures Outbox.CanInsert(rows, row.id, row.message) <==> Insertable(Outbox.Content(rows), row)
  {
    ContentOf(rows);
    ContentOf(rows[row.id := Outbox.NewRow(row.message, now)]);
    if Insertable(Outbox.Content(rows), row) {
      forall r | r in rows ensures rows[r].message.Key() != row.message.Key() { assert r in Outbox.Content(rows); }
    }
  }

  /******* booking-service *******/

  class BookingRepository {
    var bookings: map<Id, Booking>
    var records: map<string, IdempotencyRecord>
    var inbox: set<Id>
    const table: OutboxTable

    constructor (table: OutboxTable)
      requires table.rows == map[]
      ensures this.table == table && Db() == BookingDb(map[], map[], {}, map[])
    {
      this.table := table;
      bookings, records, inbox := map[], map[], {};
    }

    function Db(): BookingDb
      reads this, table
    {
      BookingDb(bookings, records, inbox, Outbox.Content(table.rows))
    }

    // The transaction, and on a unique violation of a keyed request the record, or else the booking, that explains it.
    method CreateBooking(id: Id, request: CreateRequest, row: NewRow, now: Time) returns (result: CreateResult, answer: Answer)
      modifies this, table
      ensures Tx(Db(), result) == CreateBookingWithOutbox(old(Db()), id, request, row)
      ensures if result.Created? then RowAdded(old(table.rows), table.rows, row, now) else table.rows == old(table.rows)
      ensures result.Created? ==> answer == Returned(result.dto)
      ensures result.UniqueViolation? && !Lookup(old(Db()), request).Unanswered? ==> answer == Lookup(old(Db()), request)
      ensures result.UniqueViolation? && Lookup(old(Db()), request).Unanswered? ==>
                match answer
                case Returned(dto) =>
                  && HasKey(request) && FoundByKey(old(Db()), request.key.value, dto.id)
                  && dto == BookingDto(dto.id, old(bookings)[dto.id])
                case _ =>
                  answer.Unanswered? && (HasKey(request) ==> forall b :: !FoundByKey(old(Db()), request.key.value, b))
      ensures result.CheckViolation? ==> answer == Unanswered
      ensures result.Created? ==>
                && id in bookings && result.dto == BookingDto(id, bookings[id])
                && bookings[id] == Booking(request.userId, request.eventId, request.quantity, Pending, request.key)
    {
      ContentAdded(table.rows, row, now);
      answer := Unanswered;
      if request.quantity <= 0 { return CheckViolation, answer; }
      var clash := id in bookings;
      if request.key.Some? {
        clash := clash || exists b | b in bookings :: bookings[b].key == request.key;
      }
      var newBookings := bookings[id := Booking(request.userId, request.eventId, request.quantity, Pending, request.key)];
      var dto := BookingDto(id, newBookings[id]);
      var newRecords := records;
      clash := clash || exists k | k in records :: records[k].bookingId == id;
      if request.key.Some? && request.key.value != "" {
        clash := clash || request.key.value in records;
        newRecords := records[request.key.value := IdempotencyRecord(id, request.fingerprint, dto)];
      }
      if clash || !Outbox.CanInsert(table.rows, row.id, row.message) {
        if request.key.Some? && request.key.value != "" {
          if request.key.value in records {
            var existing := records[request.key.value];
            answer := if existing.fingerprint != request.fingerprint then Reused else Returned(existing.response);
          } else if b :| b in bookings && bookings[b].key == request.key {
            answer := Returned(BookingDto(b, bookings[b]));
          }
        }
        return UniqueViolation, answer;
      }
      bookings, records := newBookings, newRecords;
      table.rows := table.rows[row.id := Outbox.NewRow(row.message, now)];
      return Created(dto), Returned(dto);
    }

    method Cancel(id: Id, row: NewRow, now: Time) returns (result: CancelResult)
      modifies this, table
      ensures Tx(Db(), result) == CancelBookingWithOutbox(old(Db()), id, row)
      ensures result.CancelDone? ==>
                && id in bookings && result.dto == BookingDto(id, bookings[id])
                && bookings[id] == old(bookings)[id].(status := Bookings.Cancelled)
      ensures if result.CancelDone? then RowAdded(old(table.rows), table.rows, row, now) else table.rows == old(table.rows)
    {
      ContentAdded(table.rows, row, now);
      if id !in bookings { return CancelNotFound; }
      if bookings[id].status != Confirmed { return CancelInvalidStatus; }
      if !Outbox.CanInsert(table.rows, row.id, row.message) { return CancelUniqueViolation; }
      bookings := bookings[id := bookings[id].(status := Bookings.Cancelled)];
      table.rows := table.rows[row.id := Outbox.NewRow(row.message, now)];
      return CancelDone(BookingDto(id, bookings[id]));
    }

    // processSeatsReservedMessage with a quantity, processSeatReservationFailedMessage without.
    method Reply(messageId: Id, id: Id, eventId: Id, quantity: Option<int>, status: Status, row: NewRow, now: Time)
      returns (result: ReplyResult)
      modifies this, table
      ensures Tx(Db(), result) == ProcessReply(old(Db()), messageId, id, eventId, quantity, status, row)
      ensures result.Applied? ==>
                && id in bookings && result.dto == BookingDto(id, bookings[id])
                && bookings[id] == old(bookings)[id].(status := status)
      ensures if result.Applied? then RowAdded(old(table.rows), table.rows, row, now) else table.rows == old(table.rows)
    {
      ContentAdded(table.rows, row, now);
      if messageId in inbox { return Duplicate; }
      var newInbox := inbox + {messageId};
      var updated := 0;
      var newBookings := bookings;
      if id in bookings && bookings[id].eventId == eventId && (quantity.None? || bookings[id].quantity == quantity.value)
         && bookings[id].status == Pending {
        newBookings, updated := bookings[id := bookings[id].(status := status)], 1;
      }
      if updated == 0 {
        result := Rejected(ClassifyBookingFailure(Db(), id, eventId, quantity));
        inbox := newInbox;
        return;
      }
      if !Outbox.CanInsert(table.rows, row.id, row.message) { return ReplyUniqueViolation; }
      bookings, inbox := newBookings, newInbox;
      table.rows := table.rows[row.id := Outbox.NewRow(row.message, now)];
      return Applied(BookingDto(id, bookings[id]));
    }
  }

  /******* event-service *******/

  function RowOf(events: map<Id, Event>, id: Id): Option<Event> {
    if id in events then Some(events[id]) else None
  }

  // The tables that the inventory repository and the event repository share.
  class EventRepository {
    var events: map<Id, Event>
    var inbox: set<Id>
    const table: OutboxTable

    constructor (table: OutboxTable)
      requires table.rows == map[]
      ensures this.table == table && Db() == EventDb(map[], {}, map[])
    {
      this.table := table;
      events, inbox := map[], {};
    }

    function Db(): EventDb
      reads this, table
    {
      EventDb(events, inbox, Outbox.Content(table.rows))
    }

    // The seats taken of each event, whatever its capacity.
    ghost function Taken(): map<Id, int>
      reads this
    {
      map e | e in events :: Reserved(events[e])
    }

    // The CHECK constraints of the table.
    ghost predicate Checked()
      reads this
    {
      forall e :: e in events ==> EventOk(events[e])
    }

    // A method leaves every event but this one as it was.
    twostate predicate OnlyMoves(id: Id)
      reads this
    {
      forall e :: e != id ==> (e in events <==> e in old(events)) && (e in events ==> events[e] == old(events)[e])
    }

    method FindById(id: Id) returns (row: Option<Event>)
      ensures row == RowOf(events, id)
    {
      row := if id in events then Some(events[id]) else None;
    }

    method Reserve(messageId: Id, eventId: Id, quantity: int, success: NewRow, failure: FailureRow, now: Time)
      returns (result: ReserveResult)
      modifies this, table
      ensures Tx(Db(), result)
           == ProcessReserveSeats(old(Db()), messageId, eventId, quantity, success, failure, eventId in old(events))
      ensures match result
              case SeatsTaken(event, _) =>
                RowAdded(old(table.rows), table.rows, success, now) && eventId in events && event == events[eventId]
              case SeatsRefused(reason, _) =>
                && (reason == InsufficientSeats <==> eventId in old(events))
                && var payload := FailurePayload(failure.bookingId, eventId, reason);
                   var message := Message(SeatReservationFailed,
                                          Envelope(failure.messageId, failure.correlationId, failure.timestamp, payload));
                   RowAdded(old(table.rows), table.rows, NewRow(failure.id, message), now)
              case _ => table.rows == old(table.rows)
      ensures OnlyMoves(eventId) && (old(Checked()) ==> Checked())
      ensures Taken() == if result.SeatsTaken? then old(Taken())[eventId := old(Taken())[eventId] + quantity] else old(Taken())
    {
      if messageId in inbox { return ReserveDuplicate; }
      var newInbox := inbox + {messageId};
      if quantity <= 0 {
        inbox := newInbox;
        return ReserveInvalidQuantity;
      }
      var newEvents := events;
      if eventId in events && events[eventId].available >= quantity {
        newEvents := events[eventId := events[eventId].(available := events[eventId].available - quantity)];
        ContentAdded(table.rows, success, now);
        if !Outbox.CanInsert(table.rows, success.id, success.message) { return ReserveUniqueViolation; }
        table.rows := table.rows[success.id := Outbox.NewRow(success.message, now)];
        events, inbox := newEvents, newInbox;
        return SeatsTaken(events[eventId], success.id);
      }
      var reason := if eventId in events then InsufficientSeats else EventNotFound;
      var row := NewRow(failure.id, FailureMessage(failure, eventId, reason));
      ContentAdded(table.rows, row, now);
      if !Outbox.CanInsert(table.rows, row.id, row.message) { return ReserveUniqueViolation; }
      table.rows := table.rows[row.id := Outbox.NewRow(row.message, now)];
      inbox := newInbox;
      return SeatsRefused(reason, row.id);
    }

    method Release(messageId: Id, eventId: Id, quantity: int) returns (result: ReleaseResult)
      modifies this
      ensures Tx(Db(), result) == ProcessReleaseSeats(old(Db()), messageId, eventId, quantity)
      ensures result.SeatsReleased? ==> eventId in events && result.event == events[eventId]
      ensures inbox == old(inbox) + {messageId} && OnlyMoves(eventId) && (old(Checked()) ==> Checked())
      ensures Taken() == if result.SeatsReleased? then old(Taken())[eventId := old(Taken())[eventId] - quantity] else old(Taken())
    {
      if messageId in inbox { return ReleaseDuplicate; }
      inbox := inbox + {messageId};
      if quantity <= 0 { return ReleaseInvalidQuantity; }
      if eventId !in events { return ReleaseEventNotFound; }
      var event := events[eventId];
      if event.available + quantity > event.total { return CapacityExceeded; }
      events := events[eventId := event.(available := event.available + quantity)];
      return SeatsReleased(events[eventId]);
    }

    method Create(id: Id, total: int) returns (result: AdminResult)
      modifies this
      ensures Tx(Db(), result) == CreateEvent(old(Db()), id, total)
      ensures OnlyMoves(id) && (old(Checked()) ==> Checked())
      ensures result.AdminDone? <==> id !in old(events) && 0 < total
      ensures result.AdminViolation? <==> id in old(events) || total <= 0
      ensures result.AdminDone? ==> events[id] == Event(total, total)
      ensures Taken() == if result.AdminDone? then old(Taken())[id := 0] else old(Taken())
    {
      if id in events || total <= 0 { return AdminViolation; }
      events := events[id := Event(total, total)];
      return AdminDone;
    }

    method Update(id: Id, total: int) returns (result: AdminResult)
      modifies this
      ensures Tx(Db(), result) == UpdateEvent(old(Db()), id, total)
      ensures OnlyMoves(id) && Taken() == old(Taken()) && (old(Checked()) ==> Checked())
      ensures result.AdminDone? <==> id in old(events) && 0 < total && old(Taken())[id] <= total
      ensures result.AdminNotFound? <==> id !in old(events)
      ensures result.BelowReserved? <==> id in old(events) && total < old(Taken())[id]
      ensures result.AdminViolation? <==> id in old(events) && old(Taken())[id] <= total <= 0
      ensures result.AdminDone? ==> events[id].total == total
      ensures !result.AdminDone? ==> events == old(events)
    {
      if id !in events { return AdminNotFound; }
      var reserved := events[id].total - events[id].available;
      if total < reserved { return BelowReserved; }
      if total <= 0 { return AdminViolation; }
      events := events[id := Event(total, total - reserved)];
      return AdminDone;
    }

    method Delete(id: Id) returns (result: AdminResult)
      modifies this
      ensures Tx(Db(), result) == DeleteEvent(old(Db()), id)
      ensures OnlyMoves(id) && (old(Checked()) ==> Checked())
      ensures result.AdminDone? <==> id in old(events) && old(Taken())[id] == 0
      ensures result.AdminNotFound? <==> id !in old(events)
      ensures result.HasReservations? <==> id in old(events) && old(Taken())[id] != 0
      ensures Taken() == if result.AdminDone? then old(Taken()) - {id} else old(Taken())
    {
      if id !in events { return AdminNotFound; }
      if events[id].available != events[id].total { return HasReservations; }
      events := events - {id};
      return AdminDone;
    }
  }

  /******* notification-service *******/

  class NotificationRepository {
    var inbox: set<Id>
    var notes: map<Id, Note>

    constructor ()
      ensures Db() == NoteDb({}, map[])
    {
      inbox, notes := {}, map[];
    }

    function Db(): NoteDb
      reads this
    {
      NoteDb(inbox, notes)
    }

    // Each processed message has its notification.
    ghost predicate Complete()
      reads this
    {
      inbox == notes.Keys
    }

    method Append(messageId: Id, note: Note) returns (stored: bool)
      modifies this
      ensures (Db(), stored) == AppendIfUnprocessed(old(Db()), messageId, note)
      ensures old(Complete()) ==> Complete() && inbox == old(inbox) + {messageId} && (stored <==> messageId !in old(inbox))
      ensures forall n :: n in old(notes) ==> n in notes && notes[n] == old(notes)[n]
      ensures stored ==> notes[messageId] == note
    {
      if messageId in inbox || messageId in notes { return false; }
      inbox, notes := inbox + {messageId}, notes[messageId := note];
      return true;
    }
  }
}
