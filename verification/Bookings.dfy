/** The booking database of booking-service: each transaction of the repository as a function on the tables. */
module Bookings {
  import opened Common
  import opened Messages

  datatype Status = Pending | Confirmed | Failed | Cancelled | Expired

  datatype Booking = Booking(userId: Id, eventId: Id, quantity: int, status: Status, key: Option<string>)

  // What an HTTP client receives.
  datatype BookingDto = BookingDto(id: Id, booking: Booking)

  datatype IdempotencyRecord = IdempotencyRecord(bookingId: Id, fingerprint: string, response: BookingDto)

  datatype BookingDb = BookingDb(bookings: map<Id, Booking>, records: map<string, IdempotencyRecord>, inbox: set<Id>,
                                 outbox: map<Id, Message>)

  datatype NewRow = NewRow(id: Id, message: Message)

  datatype Tx<S, R> = Tx(db: S, result: R)

  // The unique indexes of an outbox table.
  predicate Insertable(outbox: map<Id, Message>, row: NewRow) {
    row.id !in outbox && forall r | r in outbox :: outbox[r].Key() != row.message.Key()
  }

  /******* Creating a booking *******/

  datatype CreateRequest = CreateRequest(userId: Id, eventId: Id, quantity: int, key: Option<string>, fingerprint: string)

  datatype CreateResult = Created(dto: BookingDto) | UniqueViolation | CheckViolation

  // The code tests a key for truthiness: an empty key is stored with the booking, but never recorded or looked up.
  predicate HasKey(request: CreateRequest) {
    request.key.Some? && request.key.value != ""
  }

  predicate KeyTaken(db: BookingDb, request: CreateRequest) {
    request.key.Some? && ((exists b | b in db.bookings :: db.bookings[b].key == request.key)
                          || (HasKey(request) && request.key.value in db.records))
  }

  predicate IdTaken(db: BookingDb, id: Id) {
    id in db.bookings || exists k | k in db.records :: db.records[k].bookingId == id
  }

  function CreateBookingWithOutbox(db: BookingDb, id: Id, request: CreateRequest, row: NewRow): Tx<BookingDb, CreateResult> {
    if request.quantity <= 0 then
      Tx(db, CheckViolation)
    else if IdTaken(db, id) || KeyTaken(db, request) || !Insertable(db.outbox, row) then
      Tx(db, UniqueViolation)
    else
      var booking := Booking(request.userId, request.eventId, request.quantity, Pending, request.key);
      var dto := BookingDto(id, booking);
      Tx(db.(bookings := db.bookings[id := booking],
             records := if HasKey(request) then
                          db.records[request.key.value := IdempotencyRecord(id, request.fingerprint, dto)]
                        else db.records,
             outbox := db.outbox[row.id := row.message]),
         Created(dto))
  }

  // A request is refused exactly when its quantity is not positive or a unique index already has the booking id, the key or
  // the row. Otherwise the booking, its record if the key is not empty, and the row are all there, and the answer shows the
  // booking as it is stored.
  lemma CreateIsExact(db: BookingDb, id: Id, request: CreateRequest, row: NewRow)
    ensures var tx := CreateBookingWithOutbox(db, id, request, row);
            && (tx.result == CheckViolation <==> request.quantity <= 0)
            && (tx.result.Created? <==>
                  && 0 < request.quantity && id !in db.bookings && row.id !in db.outbox
                  && (forall b :: b in db.bookings && request.key.Some? ==> db.bookings[b].key != request.key)
                  && (forall k :: k in db.records ==> db.records[k].bookingId != id && (k == "" || request.key != Some(k)))
                  && (forall r :: r in db.outbox ==> db.outbox[r].envelope.messageId != row.message.envelope.messageId))
            && (!tx.result.Created? ==> tx.db == db)
            && (tx.result.Created? ==>
                  && id in tx.db.bookings && tx.result.dto == BookingDto(id, tx.db.bookings[id])
                  && tx.db.bookings - {id} == db.bookings && tx.db.inbox == db.inbox
                  && tx.db.bookings[id] == Booking(request.userId, request.eventId, request.quantity, Pending, request.key)
                  && tx.db.outbox == db.outbox[row.id := row.message]
                  && (request.key in {None, Some("")} ==> tx.db.records == db.records)
                  && (request.key !in {None, Some("")} ==>
                        tx.db.records
                        == db.records[request.key.value := IdempotencyRecord(id, request.fingerprint, tx.result.dto)]))
  {
    assert HasKey(request) <==> request.key !in {None, Some("")};
  }

  datatype Answer = Returned(dto: BookingDto) | Reused | Unanswered

  // The idempotency lookup: before the transaction, and again after a unique violation.
  function Lookup(db: BookingDb, request: CreateRequest): Answer {
    if HasKey(request) && request.key.value in db.records then
      var record := db.records[request.key.value];
      if record.fingerprint != request.fingerprint then Reused else Returned(record.response)
    else Unanswered
  }

  // findByIdempotencyKey, the last resort after a unique violation.
  ghost predicate FoundByKey(db: BookingDb, key: string, b: Id) {
    b in db.bookings && db.bookings[b].key == Some(key)
  }

  /******* Cancelling a booking *******/

  datatype CancelResult = CancelDone(dto: BookingDto) | CancelNotFound | CancelInvalidStatus | CancelUniqueViolation

  function CancelBookingWithOutbox(db: BookingDb, id: Id, row: NewRow): Tx<BookingDb, CancelResult> {
    if id in db.bookings && db.bookings[id].status == Confirmed then
      if !Insertable(db.outbox, row) then Tx(db, CancelUniqueViolation) else
        var booking := db.bookings[id].(status := Cancelled);
        Tx(db.(bookings := db.bookings[id := booking], outbox := db.outbox[row.id := row.message]),
           CancelDone(BookingDto(id, booking)))
    else if id !in db.bookings then Tx(db, CancelNotFound)
    else Tx(db, CancelInvalidStatus)
  }

  // Only a CONFIRMED booking can be cancelled, and the answer tells a missing booking from one in another status. What is
  // answered is the booking as the table has it afterwards: CANCELLED, on the terms of before.
  lemma CancelIsExact(db: BookingDb, id: Id, row: NewRow)
    ensures var tx := CancelBookingWithOutbox(db, id, row);
            && (tx.result == CancelNotFound <==> id !in db.bookings)
            && (tx.result == CancelInvalidStatus <==> id in db.bookings && db.bookings[id].status != Confirmed)
            && (tx.result.CancelDone? <==>
                  id in tx.db.bookings && tx.db.bookings[id].status == Cancelled && tx.db.bookings != db.bookings)
            && (tx.result.CancelDone? ==>
                  && tx.db.outbox == db.outbox[row.id := row.message] && row.id !in db.outbox
                  && (forall r :: r in db.outbox ==> db.outbox[r].envelope.messageId != row.message.envelope.messageId)
                  && tx.db.records == db.records && tx.db.inbox == db.inbox && tx.db.bookings - {id} == db.bookings - {id}
                  && tx.result.dto == BookingDto(id, tx.db.bookings[id])
                  && tx.db.bookings[id] == db.bookings[id].(status := Cancelled))
            && (tx.result == CancelUniqueViolation <==>
                  && id in db.bookings && db.bookings[id].status == Confirmed
                  && (row.id in db.outbox
                      || exists r :: r in db.outbox && db.outbox[r].envelope.messageId == row.message.envelope.messageId))
            && (!tx.result.CancelDone? ==> tx.db == db)
  {
  }

  /******* Consuming the replies of event-service *******/

  datatype Refusal = BookingNotFound | EventMismatch | QuantityMismatch | InvalidStatus

  datatype ReplyResult =
    | Duplicate
    | Applied(dto: BookingDto)
    | Rejected(reason: Refusal)
    | ReplyUniqueViolation

  function ClassifyBookingFailure(db: BookingDb, id: Id, eventId: Id, quantity: Option<int>): Refusal {
    if id !in db.bookings then BookingNotFound
    else if db.bookings[id].eventId != eventId then EventMismatch
    else if quantity.Some? && db.bookings[id].quantity != quantity.value then QuantityMismatch
    else InvalidStatus
  }

  // The guard of the UPDATE; a failure reply names no quantity.
  predicate Awaits(db: BookingDb, id: Id, eventId: Id, quantity: Option<int>) {
    && id in db.bookings
    && db.bookings[id].eventId == eventId
    && (quantity.Some? ==> db.bookings[id].quantity == quantity.value)
    && db.bookings[id].status == Pending
  }

  // Inbox insert, guarded status update and outbox insert in one transaction. A repeated message id aborts it.
  function ProcessReply(db: BookingDb, messageId: Id, id: Id, eventId: Id, quantity: Option<int>, status: Status, row: NewRow)
    : Tx<BookingDb, ReplyResult>
  {
    if messageId in db.inbox then
      Tx(db, Duplicate)
    else if !Awaits(db, id, eventId, quantity) then
      Tx(db.(inbox := db.inbox + {messageId}), Rejected(ClassifyBookingFailure(db, id, eventId, quantity)))
    else if !Insertable(db.outbox, row) then
      Tx(db, ReplyUniqueViolation)
    else
      var booking := db.bookings[id].(status := status);
      Tx(db.(bookings := db.bookings[id := booking], inbox := db.inbox + {messageId},
             outbox := db.outbox[row.id := row.message]),
         Applied(BookingDto(id, booking)))
  }

  function ProcessSeatsReserved(db: BookingDb, messageId: Id, id: Id, eventId: Id, quantity: int, row: NewRow)
    : Tx<BookingDb, ReplyResult>
  {
    ProcessReply(db, messageId, id, eventId, Some(quantity), Confirmed, row)
  }

  function ProcessSeatReservationFailed(db: BookingDb, messageId: Id, id: Id, eventId: Id, row: NewRow)
    : Tx<BookingDb, ReplyResult>
  {
    ProcessReply(db, messageId, id, eventId, None, Failed, row)
  }

  // The reason reported for a refused reply is the first condition of the guard that the booking misses.
  lemma RefusalIsExact(db: BookingDb, messageId: Id, id: Id, eventId: Id, quantity: Option<int>, status: Status, row: NewRow)
    ensures var result := ProcessReply(db, messageId, id, eventId, quantity, status, row).result;
            && (result == Rejected(BookingNotFound) <==> messageId !in db.inbox && id !in db.bookings)
            && (result == Rejected(EventMismatch) <==>
                  messageId !in db.inbox && id in db.bookings && db.bookings[id].eventId != eventId)
            && (result == Rejected(QuantityMismatch) <==>
                  && messageId !in db.inbox && id in db.bookings && db.bookings[id].eventId == eventId
                  && quantity.Some? && db.bookings[id].quantity != quantity.value)
            && (result == Rejected(InvalidStatus) <==>
                  && messageId !in db.inbox && id in db.bookings && db.bookings[id].eventId == eventId
                  && (quantity.Some? ==> db.bookings[id].quantity == quantity.value) && db.bookings[id].status != Pending)
  {
  }

  // What a reply leaves behind. An applied one is answered with the booking as the table has it afterwards: in the new
  // status, on the terms of before.
  lemma ReplyIsExact(db: BookingDb, messageId: Id, id: Id, eventId: Id, quantity: Option<int>, status: Status, row: NewRow)
    ensures var tx := ProcessReply(db, messageId, id, eventId, quantity, status, row);
            && (tx.result == Duplicate <==> messageId in db.inbox)
            && (tx.result.Duplicate? || tx.result.ReplyUniqueViolation? ==> tx.db == db)
            && (tx.result.Rejected? ==> tx.db == db.(inbox := db.inbox + {messageId}))
            && (tx.result.Applied? ==>
                  && id in db.bookings && db.bookings[id].status == Pending && db.bookings[id].eventId == eventId
                  && (quantity == None || quantity == Some(db.bookings[id].quantity))
                  && id in tx.db.bookings && tx.result.dto == BookingDto(id, tx.db.bookings[id])
                  && tx.db.bookings[id] == db.bookings[id].(status := status)
                  && tx.db.bookings - {id} == db.bookings - {id} && tx.db.records == db.records
                  && tx.db.inbox == db.inbox + {messageId} && tx.db.outbox == db.outbox[row.id := row.message])
            && (tx.result.ReplyUniqueViolation? ==>
                  row.id in db.outbox
                  || exists r :: r in db.outbox && db.outbox[r].envelope.messageId == row.message.envelope.messageId)
  {
  }
}
