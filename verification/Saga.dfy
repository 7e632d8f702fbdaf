/**
 The booking saga: the transactions of booking-service, event-service and notification-service, and the service code
 between them, as one state machine over three databases.

 Deliveries follow the outboxes: a consumer may be handed any message whose row some transaction wrote, any number of
 times and in any order. The module System connects this to the rows, dispatchers and logs of the two outboxes.
 */
module Saga {
  import opened Common
  import opened Messages
  import opened Bookings
  import opened Inventory
  import opened Notifications

  /******* State *******/

  // createBooking between its awaits: after the lookup, after a unique violation, and at the end.
  datatype CreateState = LookedUp | Conflicted | Finished(answer: Answer) | Errored

  datatype CreateCall = CreateCall(request: CreateRequest, state: CreateState)

  // cancelBooking between its read and its transaction.
  datatype CancelCall = CancelCall(booking: Id, seen: Booking)

  // What event-service decided about a booking, and in which row it replied.
  datatype Decision = Undecided | Took(reply: Id) | Refused(reply: Id)

  // The history of one booking: the rows written for it and whether its seats came back. No step reads it.
  datatype Trail = Trail(reserveRow: Id, decision: Decision, outcomeRow: Option<Id>, cancelRow: Option<Id>, released: bool)

  datatype State = State(b: BookingDb, e: EventDb, n: NoteDb, creates: map<Id, CreateCall>, cancels: map<Id, CancelCall>,
                         trails: map<Id, Trail>)

  const START: State :=
    State(BookingDb(map[], map[], {}, map[]), EventDb(map[], {}, map[]), NoteDb({}, map[]), map[], map[], map[])

  /******* Messages *******/

  function ReserveMessage(id: Id, request: CreateRequest, messageId: Id, at: Time): Message {
    Message(ReserveSeats,
            Envelope(messageId, id, at, ReservePayload(id, request.eventId, request.userId, request.quantity)))
  }

  function CancelMessage(id: Id, seen: Booking, messageId: Id, at: Time): Message {
    Message(BookingCancelled, Envelope(messageId, id, at, SeatsPayload(id, seen.eventId, seen.quantity)))
  }

  function SuccessMessage(m: Message, messageId: Id, at: Time): Message
    requires m.envelope.payload.ReservePayload?
  {
    var p := m.envelope.payload;
    Message(SeatsReserved,
            Envelope(messageId, m.envelope.correlationId, at, SeatsPayload(p.bookingId, p.eventId, p.quantity)))
  }

  function ConfirmedMessage(m: Message, messageId: Id, at: Time): Message
    requires m.envelope.payload.SeatsPayload?
  {
    Message(BookingConfirmed, Envelope(messageId, m.envelope.correlationId, at, m.envelope.payload))
  }

  function FailedMessage(m: Message, messageId: Id, at: Time): Message
    requires m.envelope.payload.FailurePayload?
  {
    Message(BookingFailed, Envelope(messageId, m.envelope.correlationId, at, m.envelope.payload))
  }

  // The envelope reserveSeats publishes itself: the one it stored, or, for a failure, one it builds anew.
  function DirectCopy(m: Message, at: Time): Message {
    if m.topic == SeatReservationFailed then m.(envelope := m.envelope.(timestamp := at)) else m
  }

  /******* Steps *******/

  // The identifiers a handler draws for the row it may write.
  datatype Draw = Draw(row: Id, messageId: Id, at: Time)

  datatype Step =
    | Look(call: Id, request: CreateRequest)
    | Create(call: Id, id: Id, draw: Draw)
    | Resolve(call: Id)
    | ReadForCancel(call: Id, booking: Id)
    | Cancel(call: Id, draw: Draw)
    | OnReserve(row: Id, m: Message, success: Draw, failure: Draw, seen: bool)
    | OnCancelled(row: Id, m: Message)
    | OnSeatsReserved(row: Id, m: Message, draw: Draw)
    | OnSeatsRefused(row: Id, m: Message, draw: Draw)
    | Notify(row: Id, m: Message)
    | AddEvent(id: Id, total: int)
    | ChangeEvent(id: Id, total: int)
    | RemoveEvent(id: Id)

  // A copy of the message of `row`, as some consumer receives it after the schema check.
  ghost predicate Delivered(outbox: map<Id, Message>, row: Id, m: Message, topic: Topic) {
    row in outbox && m.topic == topic && m.SameContent(outbox[row]) && m.WellTyped()
  }

  // Random UUIDs collide with nothing the system holds.
  ghost predicate FreshForBookings(s: State, draw: Draw) {
    && draw.row !in s.b.outbox
    && (forall r :: r in s.b.outbox ==> s.b.outbox[r].Key() != draw.messageId)
    && draw.messageId !in s.e.inbox && draw.messageId !in s.n.inbox
  }

  ghost predicate FreshForEvents(s: State, draw: Draw) {
    && draw.row !in s.e.outbox
    && (forall r :: r in s.e.outbox ==> s.e.outbox[r].Key() != draw.messageId)
    && draw.messageId !in s.b.inbox
  }

  ghost predicate InCall(s: State, call: Id, state: CreateState) {
    call in s.creates && s.creates[call].state == state
  }

  ghost predicate Enabled(s: State, step: Step) {
    match step
    case Look(c, _) => c !in s.creates
    case Create(c, id, draw) =>
      InCall(s, c, LookedUp) && id !in s.b.bookings && id !in s.trails && FreshForBookings(s, draw)
      && forall k :: k in s.b.records ==> s.b.records[k].bookingId != id
    case Resolve(c) => InCall(s, c, Conflicted)
    case ReadForCancel(c, id) => c !in s.cancels && id in s.b.bookings
    case Cancel(c, draw) => c in s.cancels && FreshForBookings(s, draw)
    case OnReserve(row, m, success, failure, _) =>
      Delivered(s.b.outbox, row, m, ReserveSeats) && FreshForEvents(s, success) && FreshForEvents(s, failure)
    case OnCancelled(row, m) => Delivered(s.b.outbox, row, m, BookingCancelled)
    case OnSeatsReserved(row, m, draw) => Delivered(s.e.outbox, row, m, SeatsReserved) && FreshForBookings(s, draw)
    case OnSeatsRefused(row, m, draw) => Delivered(s.e.outbox, row, m, SeatReservationFailed) && FreshForBookings(s, draw)
    case Notify(row, m) => Notifies(m.topic) && Delivered(s.b.outbox, row, m, m.topic)
    case _ => true
  }

  /******* Effects *******/

  function ApplyLook(s: State, c: Id, request: CreateRequest): State {
    var answer := Lookup(s.b, request);
    s.(creates := s.creates[c := CreateCall(request, if answer.Unanswered? then LookedUp else Finished(answer))])
  }

  function CreateTx(s: State, c: Id, id: Id, draw: Draw): Tx<BookingDb, CreateResult>
    requires c in s.creates
  {
    var request := s.creates[c].request;
    CreateBookingWithOutbox(s.b, id, request, NewRow(draw.row, ReserveMessage(id, request, draw.messageId, draw.at)))
  }

  function ApplyCreate(s: State, c: Id, id: Id, draw: Draw): State
    requires c in s.creates
  {
    var tx := CreateTx(s, c, id, draw);
    var call := s.creates[c];
    var state := match tx.result
      case Created(dto) => Finished(Returned(dto))
      case UniqueViolation => if HasKey(call.request) then Conflicted else Errored
      case CheckViolation => Errored;
    s.(b := tx.db,
       creates := s.creates[c := call.(state := state)],
       trails := if tx.result.Created? then s.trails[id := Trail(draw.row, Undecided, None, None, false)] else s.trails)
  }

  // The fallback of createBookingWithOutbox: the record, else the booking itself, else the original error.
  ghost function ApplyResolve(s: State, c: Id): State
    requires c in s.creates
  {
    var call := s.creates[c];
    var answer := Lookup(s.b, call.request);
    var state :=
      if !answer.Unanswered? then Finished(answer)
      else if call.request.key.Some? && exists b :: FoundByKey(s.b, call.request.key.value, b) then
        var b :| FoundByKey(s.b, call.request.key.value, b);
        Finished(Returned(BookingDto(b, s.b.bookings[b])))
      else Errored;
    s.(creates := s.creates[c := call.(state := state)])
  }

  function ApplyCancel(s: State, c: Id, draw: Draw): State
    requires c in s.cancels
  {
    var call := s.cancels[c];
    var tx := CancelBookingWithOutbox(s.b, call.booking,
                                      NewRow(draw.row, CancelMessage(call.booking, call.seen, draw.messageId, draw.at)));
    s.(b := tx.db,
       cancels := s.cancels - {c},
       trails := if tx.result.CancelDone? && call.booking in s.trails then
                   s.trails[call.booking := s.trails[call.booking].(cancelRow := Some(draw.row))]
                 else s.trails)
  }

  function ReserveTx(s: State, m: Message, success: Draw, failure: Draw, seen: bool): Tx<EventDb, ReserveResult>
    requires m.WellTyped() && m.topic == ReserveSeats
  {
    var p := m.envelope.payload;
    ProcessReserveSeats(s.e, m.Key(), p.eventId, p.quantity,
                        NewRow(success.row, SuccessMessage(m, success.messageId, success.at)),
                        FailureRow(failure.row, failure.messageId, m.envelope.correlationId, p.bookingId, failure.at), seen)
  }

  function ApplyReserve(s: State, m: Message, success: Draw, failure: Draw, seen: bool): State
    requires m.WellTyped() && m.topic == ReserveSeats
  {
    var b := m.envelope.payload.bookingId;
    var tx := ReserveTx(s, m, success, failure, seen);
    s.(e := tx.db,
       trails := if b !in s.trails then s.trails else
                   match tx.result
                   case SeatsTaken(_, r) => s.trails[b := s.trails[b].(decision := Took(r))]
                   case SeatsRefused(_, r) => s.trails[b := s.trails[b].(decision := Refused(r))]
                   case _ => s.trails)
  }

  function ReleaseTx(s: State, m: Message): Tx<EventDb, ReleaseResult>
    requires m.WellTyped() && m.topic == BookingCancelled
  {
    ProcessReleaseSeats(s.e, m.Key(), m.envelope.payload.eventId, m.envelope.payload.quantity)
  }

  function ApplyRelease(s: State, m: Message): State
    requires m.WellTyped() && m.topic == BookingCancelled
  {
    var b := m.envelope.payload.bookingId;
    var tx := ReleaseTx(s, m);
    s.(e := tx.db,
       trails := if !tx.result.ReleaseDuplicate? && b in s.trails then s.trails[b := s.trails[b].(released := true)]
                 else s.trails)
  }

  function ReplyTx(s: State, m: Message, draw: Draw): Tx<BookingDb, ReplyResult>
    requires m.WellTyped() && m.topic in {SeatsReserved, SeatReservationFailed}
  {
    var p := m.envelope.payload;
    if m.topic == SeatsReserved then
      ProcessSeatsReserved(s.b, m.Key(), p.bookingId, p.eventId, p.quantity,
                           NewRow(draw.row, ConfirmedMessage(m, draw.messageId, draw.at)))
    else
      ProcessSeatReservationFailed(s.b, m.Key(), p.bookingId, p.eventId,
                                   NewRow(draw.row, FailedMessage(m, draw.messageId, draw.at)))
  }

  function ApplyReply(s: State, m: Message, draw: Draw): State
    requires m.WellTyped() && m.topic in {SeatsReserved, SeatReservationFailed}
  {
    var b := m.envelope.payload.bookingId;
    var tx := ReplyTx(s, m, draw);
    s.(b := tx.db,
       trails := if tx.result.Applied? && b in s.trails then s.trails[b := s.trails[b].(outcomeRow := Some(draw.row))]
                 else s.trails)
  }

  ghost function Apply(s: State, step: Step): State
    requires Enabled(s, step)
  {
    match step
    case Look(c, request) => ApplyLook(s, c, request)
    case Create(c, id, draw) => ApplyCreate(s, c, id, draw)
    case Resolve(c) => ApplyResolve(s, c)
    case ReadForCancel(c, id) => s.(cancels := s.cancels[c := CancelCall(id, s.b.bookings[id])])
    case Cancel(c, draw) => ApplyCancel(s, c, draw)
    case OnReserve(_, m, success, failure, seen) => ApplyReserve(s, m, success, failure, seen)
    case OnCancelled(_, m) => ApplyRelease(s, m)
    case OnSeatsReserved(_, m, draw) => ApplyReply(s, m, draw)
    case OnSeatsRefused(_, m, draw) => ApplyReply(s, m, draw)
    case Notify(_, m) => s.(n := AppendIfUnprocessed(s.n, m.Key(), NoteOf(m)).0)
    case AddEvent(id, total) => s.(e := CreateEvent(s.e, id, total).db)
    case ChangeEvent(id, total) => s.(e := UpdateEvent(s.e, id, total).db)
    case RemoveEvent(id) => s.(e := DeleteEvent(s.e, id).db)
  }

  ghost predicate Run(s: State, steps: seq<Step>)
    decreases steps
  {
    steps == [] || (Enabled(s, steps[0]) && Run(Apply(s, steps[0]), steps[1..]))
  }

  ghost function After(s: State, steps: seq<Step>): State
    requires Run(s, steps)
    decreases steps
  {
    if steps == [] then s else After(Apply(s, steps[0]), steps[1..])
  }

  ghost predicate Reachable(s: State) {
    exists steps :: Run(START, steps) && After(START, steps) == s
  }
}
