/** The event database of event-service: seat inventory and event administration as functions on the tables. */
module Inventory {
  import opened Common
  import opened Messages
  import opened Bookings

  datatype Event = Event(total: int, available: int)

  datatype EventDb = EventDb(events: map<Id, Event>, inbox: set<Id>, outbox: map<Id, Message>)

  // The CHECK constraints of the events table.
  predicate EventOk(e: Event) {
    0 < e.total && 0 <= e.available <= e.total
  }

  function Reserved(e: Event): int {
    e.total - e.available
  }

  /******* Reserving *******/

  datatype ReserveResult =
    | ReserveDuplicate
    | ReserveInvalidQuantity
    | SeatsTaken(event: Event, row: Id)
    | SeatsRefused(reason: Reason, row: Id)
    | ReserveUniqueViolation

  // The parts of the failure row that are fixed before the transaction; it fills in the reason.
  datatype FailureRow = FailureRow(id: Id, messageId: Id, correlationId: Id, bookingId: Id, timestamp: Time)

  function FailureMessage(f: FailureRow, eventId: Id, reason: Reason): Message {
    Message(SeatReservationFailed,
            Envelope(f.messageId, f.correlationId, f.timestamp, FailurePayload(f.bookingId, eventId, reason)))
  }

  // `seen` is what the diagnostic read after a refused UPDATE finds; another transaction may have intervened.
  function ProcessReserveSeats(db: EventDb, messageId: Id, eventId: Id, quantity: int, success: NewRow, failure: FailureRow,
                               seen: bool): Tx<EventDb, ReserveResult>
  {
    if messageId in db.inbox then
      Tx(db, ReserveDuplicate)
    else if quantity <= 0 then
      Tx(db.(inbox := db.inbox + {messageId}), ReserveInvalidQuantity)
    else if eventId in db.events && db.events[eventId].available >= quantity then
      if !Insertable(db.outbox, success) then Tx(db, ReserveUniqueViolation) else
        var event := db.events[eventId].(available := db.events[eventId].available - quantity);
        Tx(db.(events := db.events[eventId := event], inbox := db.inbox + {messageId},
               outbox := db.outbox[success.id := success.message]),
           SeatsTaken(event, success.id))
    else
      var reason := if seen then InsufficientSeats else EventNotFound;
      var row := NewRow(failure.id, FailureMessage(failure, eventId, reason));
      if !Insertable(db.outbox, row) then Tx(db, ReserveUniqueViolation) else
        Tx(db.(inbox := db.inbox + {messageId}, outbox := db.outbox[row.id := row.message]),
           SeatsRefused(reason, row.id))
  }

  // What a reservation leaves behind. Seats are taken exactly when the message is new and they are there; the answer shows
  // the event as it is stored then. A refusal writes the row that gives its reason.
  lemma ReserveIsExact(db: EventDb, messageId: Id, eventId: Id, quantity: int, success: NewRow, failure: FailureRow, seen: bool)
    ensures var tx := ProcessReserveSeats(db, messageId, eventId, quantity, success, failure, seen);
            var fits := eventId in db.events && quantity <= db.events[eventId].available;
            && (tx.result == ReserveDuplicate <==> messageId in db.inbox)
            && (tx.result == ReserveInvalidQuantity <==> messageId !in db.inbox && quantity <= 0)
            && (tx.result.SeatsTaken? ==> fits) && (tx.result.SeatsRefused? ==> !fits)
            && (tx.result.ReserveDuplicate? || tx.result.ReserveUniqueViolation? ==> tx.db == db)
            && (!tx.result.ReserveUniqueViolation? ==> tx.db.inbox == db.inbox + {messageId})
            && (!tx.result.SeatsTaken? ==> tx.db.events == db.events)
            && (tx.result.ReserveInvalidQuantity? ==> tx.db.outbox == db.outbox)
            && (tx.result.SeatsTaken? ==>
                  && eventId in tx.db.events && tx.result.event == tx.db.events[eventId] && tx.result.row == success.id
                  && tx.db.events[eventId].total == db.events[eventId].total
                  && Reserved(tx.db.events[eventId]) == Reserved(db.events[eventId]) + quantity
                  && tx.db.events - {eventId} == db.events - {eventId}
                  && tx.db.outbox == db.outbox[success.id := success.message])
            && (tx.result.SeatsRefused? ==>
                  && (tx.result.reason == InsufficientSeats <==> seen) && tx.result.row == failure.id
                  && tx.db.outbox
                     == db.outbox[failure.id := Message(SeatReservationFailed,
                                                        Envelope(failure.messageId, failure.correlationId, failure.timestamp,
                                                                 FailurePayload(failure.bookingId, eventId, tx.result.reason)))])
            && (tx.result.ReserveUniqueViolation? ==>
                  (if fits then success.id else failure.id) in db.outbox
                  || exists r :: r in db.outbox
                       && db.outbox[r].envelope.messageId
                          == if fits then success.message.envelope.messageId else failure.messageId)
  {
  }

  /******* Releasing *******/

  datatype ReleaseResult =
    | ReleaseDuplicate
    | ReleaseInvalidQuantity
    | SeatsReleased(event: Event)
    | CapacityExceeded
    | ReleaseEventNotFound

  function ProcessReleaseSeats(db: EventDb, messageId: Id, eventId: Id, quantity: int): Tx<EventDb, ReleaseResult> {
    if messageId in db.inbox then
      Tx(db, ReleaseDuplicate)
    else if quantity <= 0 then
      Tx(db.(inbox := db.inbox + {messageId}), ReleaseInvalidQuantity)
    else if eventId in db.events && db.events[eventId].available + quantity <= db.events[eventId].total then
      var event := db.events[eventId].(available := db.events[eventId].available + quantity);
      Tx(db.(events := db.events[eventId := event], inbox := db.inbox + {messageId}), SeatsReleased(event))
    else
      Tx(db.(inbox := db.inbox + {messageId}),
         if eventId in db.events then CapacityExceeded else ReleaseEventNotFound)
  }

  // Giving the same seats back undoes the reservation.
  lemma ReleaseUndoesReserve(db: EventDb, reserveId: Id, releaseId: Id, eventId: Id, quantity: int, success: NewRow,
                             failure: FailureRow, seen: bool)
    requires eventId in db.events ==> EventOk(db.events[eventId])
    ensures var taken := ProcessReserveSeats(db, reserveId, eventId, quantity, success, failure, seen);
            var back := ProcessReleaseSeats(taken.db, releaseId, eventId, quantity);
            taken.result.SeatsTaken? && releaseId !in taken.db.inbox ==>
              back.result == SeatsReleased(db.events[eventId]) && back.db.events == db.events
  {
  }

  // A release answers CAPACITY_EXCEEDED or EVENT_NOT_FOUND only where it would break the event row or has none. Otherwise it
  // answers with the event as it is stored afterwards.
  lemma ReleaseIsExact(db: EventDb, messageId: Id, eventId: Id, quantity: int)
    ensures var tx := ProcessReleaseSeats(db, messageId, eventId, quantity);
            var valid := messageId !in db.inbox && 0 < quantity;
            && tx.db.inbox == db.inbox + {messageId} && tx.db.outbox == db.outbox
            && (tx.result == ReleaseDuplicate <==> messageId in db.inbox)
            && (tx.result == ReleaseInvalidQuantity <==> messageId !in db.inbox && quantity <= 0)
            && (tx.result == ReleaseEventNotFound <==> valid && eventId !in db.events)
            && (tx.result == CapacityExceeded <==>
                  valid && eventId in db.events && Reserved(db.events[eventId]) < quantity)
            && (!tx.result.SeatsReleased? ==> tx.db.events == db.events)
            && (tx.result.SeatsReleased? ==>
                  && eventId in tx.db.events && tx.result.event == tx.db.events[eventId]
                  && tx.db.events - {eventId} == db.events - {eventId}
                  && tx.db.events[eventId].total == db.events[eventId].total
                  && Reserved(tx.db.events[eventId]) == Reserved(db.events[eventId]) - quantity
                  && (EventOk(db.events[eventId]) ==> EventOk(tx.db.events[eventId])))
  {
  }

  /******* Event administration *******/

  datatype AdminResult = AdminDone | AdminNotFound | BelowReserved | HasReservations | AdminViolation

  function CreateEvent(db: EventDb, id: Id, total: int): Tx<EventDb, AdminResult> {
    if id in db.events || total <= 0 then Tx(db, AdminViolation)
    else Tx(db.(events := db.events[id := Event(total, total)]), AdminDone)
  }

  // A capacity change keeps the number of reserved seats.
  function UpdateEvent(db: EventDb, id: Id, total: int): Tx<EventDb, AdminResult> {
    if id !in db.events then Tx(db, AdminNotFound)
    else if total < Reserved(db.events[id]) then Tx(db, BelowReserved)
    else if total <= 0 then Tx(db, AdminViolation)
    else Tx(db.(events := db.events[id := Event(total, total - Reserved(db.events[id]))]), AdminDone)
  }

  function DeleteEvent(db: EventDb, id: Id): Tx<EventDb, AdminResult> {
    if id !in db.events then Tx(db, AdminNotFound)
    else if db.events[id].available != db.events[id].total then Tx(db, HasReservations)
    else Tx(db.(events := db.events - {id}), AdminDone)
  }

  // Each answer of the administration has one cause, for every table; only a success changes anything, and only this event.
  lemma AdministrationIsExact(db: EventDb, id: Id, total: int)
    ensures var tx := CreateEvent(db, id, total);
            && (tx.result == AdminDone <==> id !in db.events && 0 < total)
            && (tx.result == AdminViolation <==> id in db.events || total <= 0)
            && (tx.result.AdminDone? ==> tx.db == db.(events := db.events[id := Event(total, total)]))
            && (!tx.result.AdminDone? ==> tx.db == db)
    ensures var tx := UpdateEvent(db, id, total);
            && (tx.result == AdminNotFound <==> id !in db.events)
            && (tx.result == BelowReserved <==> id in db.events && total < db.events[id].total - db.events[id].available)
            && (tx.result == AdminViolation <==>
                  id in db.events && db.events[id].total - db.events[id].available <= total <= 0)
            && tx.result != HasReservations
            && (!tx.result.AdminDone? ==> tx.db == db)
            && tx.db.events - {id} == db.events - {id} && tx.db.inbox == db.inbox && tx.db.outbox == db.outbox
    ensures var tx := DeleteEvent(db, id);
            && (tx.result == AdminNotFound <==> id !in db.events)
            && (tx.result == HasReservations <==> id in db.events && db.events[id].available != db.events[id].total)
            && (tx.result == AdminDone <==> id in db.events && db.events[id].available == db.events[id].total)
            && tx.db == if tx.result.AdminDone? then db.(events := db.events - {id}) else db
  {
  }

  // A capacity change succeeds exactly when the reserved seats still fit, and resizing back undoes it. Too small a capacity
  // is answered as such.
  lemma ResizeIsExact(db: EventDb, id: Id, total: int)
    requires id in db.events && EventOk(db.events[id])
    ensures var tx := UpdateEvent(db, id, total);
            && (tx.result.AdminDone? <==> 0 < total && Reserved(db.events[id]) <= total)
            && (tx.result == BelowReserved <==> total < db.events[id].total - db.events[id].available)
            && (!tx.result.AdminDone? ==> tx.db == db)
            && (tx.result.AdminDone? ==>
                  && tx.db.events[id].total == total && EventOk(tx.db.events[id])
                  && Reserved(tx.db.events[id]) == Reserved(db.events[id])
                  && UpdateEvent(tx.db, id, db.events[id].total).db == db)
  {
  }
}
