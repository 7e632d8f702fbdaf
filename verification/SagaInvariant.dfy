/** What every step of the saga keeps, under any interleaving, redelivery and reordering. */
module SagaInvariant {
  import opened Common
  import opened Messages
  import opened Sums
  import opened Bookings
  import opened Inventory
  import opened Notifications
  import opened Saga

  /******* Rows and inboxes *******/

  ghost predicate KeysDistinct(outbox: map<Id, Message>) {
    forall r, t :: r in outbox && t in outbox && outbox[r].Key() == outbox[t].Key() ==> r == t
  }

  // Row r carries this message for booking b.
  ghost predicate Sent(outbox: map<Id, Message>, r: Id, topic: Topic, b: Id, payload: Payload) {
    && r in outbox && outbox[r].topic == topic
    && outbox[r].envelope.correlationId == b && outbox[r].envelope.payload == payload
  }

  ghost predicate SentFailure(outbox: map<Id, Message>, r: Id, topic: Topic, b: Id, eventId: Id) {
    && r in outbox && outbox[r].envelope.payload.FailurePayload?
    && Sent(outbox, r, topic, b, FailurePayload(b, eventId, outbox[r].envelope.payload.reason))
  }

  // A failure keeps its reason on the way.
  ghost predicate SamePayload(outbox: map<Id, Message>, r: Id, replies: map<Id, Message>, reply: Id) {
    r in outbox && reply in replies && outbox[r].envelope.payload == replies[reply].envelope.payload
  }

  ghost predicate Consumed(inbox: set<Id>, outbox: map<Id, Message>, r: Id) {
    r in outbox && outbox[r].Key() in inbox
  }

  /******* One booking *******/

  ghost predicate RequestOk(s: State, b: Id, k: Booking, t: Trail) {
    && k.quantity > 0
    && Sent(s.b.outbox, t.reserveRow, ReserveSeats, b, ReservePayload(b, k.eventId, k.userId, k.quantity))
    && (Consumed(s.e.inbox, s.b.outbox, t.reserveRow) <==> t.decision != Undecided)
  }

  ghost predicate DecisionOk(s: State, b: Id, k: Booking, t: Trail) {
    match t.decision
    case Undecided => true
    case Took(r) => Sent(s.e.outbox, r, SeatsReserved, b, SeatsPayload(b, k.eventId, k.quantity))
    case Refused(r) => SentFailure(s.e.outbox, r, SeatReservationFailed, b, k.eventId)
  }

  // The status is exactly as far as the decision, the reply and the cancellation have been carried.
  ghost predicate StatusOk(s: State, b: Id, k: Booking, t: Trail) {
    match k.status
    case Pending =>
      && t.outcomeRow.None? && t.cancelRow.None?
      && (t.decision.Undecided? || !Consumed(s.b.inbox, s.e.outbox, t.decision.reply))
    case Confirmed =>
      && t.decision.Took? && Consumed(s.b.inbox, s.e.outbox, t.decision.reply)
      && t.outcomeRow.Some? && t.cancelRow.None?
      && Sent(s.b.outbox, t.outcomeRow.value, BookingConfirmed, b, SeatsPayload(b, k.eventId, k.quantity))
    case Cancelled =>
      && t.decision.Took? && Consumed(s.b.inbox, s.e.outbox, t.decision.reply)
      && t.outcomeRow.Some? && t.cancelRow.Some?
      && Sent(s.b.outbox, t.outcomeRow.value, BookingConfirmed, b, SeatsPayload(b, k.eventId, k.quantity))
      && Sent(s.b.outbox, t.cancelRow.value, BookingCancelled, b, SeatsPayload(b, k.eventId, k.quantity))
    case Failed =>
      && t.decision.Refused? && Consumed(s.b.inbox, s.e.outbox, t.decision.reply)
      && t.outcomeRow.Some? && t.cancelRow.None?
      && SentFailure(s.b.outbox, t.outcomeRow.value, BookingFailed, b, k.eventId)
      && SamePayload(s.b.outbox, t.outcomeRow.value, s.e.outbox, t.decision.reply)
    case Expired => false
  }

  ghost predicate ReleaseOk(s: State, t: Trail) {
    t.released <==> t.cancelRow.Some? && Consumed(s.e.inbox, s.b.outbox, t.cancelRow.value)
  }

  ghost predicate BookingOk(s: State, b: Id)
    requires b in s.b.bookings && b in s.trails
  {
    var k, t := s.b.bookings[b], s.trails[b];
    RequestOk(s, b, k, t) && DecisionOk(s, b, k, t) && StatusOk(s, b, k, t) && ReleaseOk(s, t)
  }

  ghost predicate BookingsOk(s: State) {
    s.trails.Keys == s.b.bookings.Keys && forall b :: b in s.b.bookings ==> BookingOk(s, b)
  }

  /******* Every row belongs to the history of its booking *******/

  function About(outbox: map<Id, Message>, r: Id): Id
    requires r in outbox
  {
    outbox[r].envelope.payload.bookingId
  }

  ghost predicate BookingRowOk(s: State, r: Id)
    requires r in s.b.outbox
  {
    var b := About(s.b.outbox, r);
    && b in s.trails
    && match s.b.outbox[r].topic
       case ReserveSeats => s.trails[b].reserveRow == r
       case BookingConfirmed => s.trails[b].outcomeRow == Some(r) && s.trails[b].decision.Took?
       case BookingFailed => s.trails[b].outcomeRow == Some(r) && s.trails[b].decision.Refused?
       case BookingCancelled => s.trails[b].cancelRow == Some(r)
       case _ => false
  }

  ghost predicate EventRowOk(s: State, r: Id)
    requires r in s.e.outbox
  {
    var b := About(s.e.outbox, r);
    && b in s.trails
    && match s.e.outbox[r].topic
       case SeatsReserved => s.trails[b].decision == Took(r)
       case SeatReservationFailed => s.trails[b].decision == Refused(r)
       case _ => false
  }

  ghost predicate RowsOk(s: State) {
    && KeysDistinct(s.b.outbox) && KeysDistinct(s.e.outbox)
    && (forall r :: r in s.b.outbox ==> BookingRowOk(s, r))
    && (forall r :: r in s.e.outbox ==> EventRowOk(s, r))
  }

  /******* The seat ledger *******/

  // Seats of event e that booking b holds: taken by its reserve message and not given back by its cancellation.
  function HeldBy(s: State, e: Id, b: Id): int {
    if b in s.trails && b in s.b.bookings && s.b.bookings[b].eventId == e
       && s.trails[b].decision.Took? && !s.trails[b].released
    then s.b.bookings[b].quantity
    else 0
  }

  ghost function Holding(s: State, e: Id): Id -> int {
    (b: Id) => HeldBy(s, e, b)
  }

  ghost function Held(s: State, e: Id): int {
    Sum(s.b.bookings.Keys, Holding(s, e))
  }

  ghost predicate Balanced(s: State, e: Id) {
    && (e in s.e.events ==> EventOk(s.e.events[e]) && Held(s, e) == Inventory.Reserved(s.e.events[e]))
    && (e !in s.e.events ==> Held(s, e) == 0)
  }

  ghost predicate LedgerOk(s: State) {
    forall e :: Balanced(s, e)
  }

  /******* Idempotency *******/

  ghost predicate RecordOk(s: State, key: string)
    requires key in s.b.records
  {
    var r := s.b.records[key];
    && key != ""
    && r.bookingId in s.b.bookings && s.b.bookings[r.bookingId].key == Some(key)
    && r.response == BookingDto(r.bookingId, s.b.bookings[r.bookingId].(status := Pending))
  }

  ghost predicate KeyedOk(s: State, b: Id)
    requires b in s.b.bookings
  {
    var key := s.b.bookings[b].key;
    && (key.Some? && key.value != "" ==> key.value in s.b.records && s.b.records[key.value].bookingId == b)
  }

  ghost predicate AnswerOk(s: State, call: CreateCall) {
    HasKey(call.request) ==>
      var key := call.request.key.value;
      match call.state
      case LookedUp => true
      case Conflicted => key in s.b.records
      case Finished(Returned(dto)) =>
        key in s.b.records && dto == s.b.records[key].response && s.b.records[key].fingerprint == call.request.fingerprint
      case Finished(Reused) => key in s.b.records && s.b.records[key].fingerprint != call.request.fingerprint
      case Finished(Unanswered) => false
      case Errored => call.request.quantity <= 0
  }

  ghost predicate IdempotencyOk(s: State) {
    && (forall key :: key in s.b.records ==> RecordOk(s, key))
    && (forall b :: b in s.b.bookings ==> KeyedOk(s, b))
    && (forall b, d :: b in s.b.bookings && d in s.b.bookings ==>
          s.b.bookings[b].key.Some? && s.b.bookings[b].key == s.b.bookings[d].key ==> b == d)
    && (forall c :: c in s.creates ==> AnswerOk(s, s.creates[c]))
    && (forall c :: c in s.creates && s.creates[c].state.Conflicted? ==> HasKey(s.creates[c].request))
  }

  /******* Calls and notifications *******/

  ghost predicate SameTerms(k: Booking, l: Booking) {
    k.userId == l.userId && k.eventId == l.eventId && k.quantity == l.quantity && k.key == l.key
  }

  ghost predicate CancelsOk(s: State) {
    forall c :: c in s.cancels ==>
      s.cancels[c].booking in s.b.bookings && SameTerms(s.cancels[c].seen, s.b.bookings[s.cancels[c].booking])
  }

  // A notification is the content of a row that reached the status it reports.
  ghost predicate NoteOk(s: State, id: Id)
    requires id in s.n.notes
  {
    var note := s.n.notes[id];
    && note.bookingId in s.trails
    && var t := s.trails[note.bookingId];
       match note.kind
       case ConfirmedNote => t.outcomeRow.Some? && t.decision.Took? && Noted(s, t.outcomeRow.value, id)
       case FailedNote => t.outcomeRow.Some? && t.decision.Refused? && Noted(s, t.outcomeRow.value, id)
       case CancelledNote => t.cancelRow.Some? && Noted(s, t.cancelRow.value, id)
  }

  ghost predicate Noted(s: State, r: Id, id: Id)
    requires id in s.n.notes
  {
    r in s.b.outbox && s.b.outbox[r].Key() == id && Notifies(s.b.outbox[r].topic) && NoteOf(s.b.outbox[r]) == s.n.notes[id]
  }

  ghost predicate NotesOk(s: State) {
    s.n.inbox == s.n.notes.Keys && forall id :: id in s.n.notes ==> NoteOk(s, id)
  }

  ghost predicate Inv(s: State) {
    BookingsOk(s) && RowsOk(s) && LedgerOk(s) && IdempotencyOk(s) && CancelsOk(s) && NotesOk(s)
  }

  /******* Progress of one booking *******/

  ghost predicate Grows(outbox: map<Id, Message>, outbox': map<Id, Message>) {
    forall r :: r in outbox ==> r in outbox' && outbox'[r] == outbox[r]
  }

  // An inbox gained nothing but message ids of booking b0.
  ghost predicate OnlyAbout(inbox: set<Id>, inbox': set<Id>, outbox: map<Id, Message>, b0: Id) {
    forall r :: r in outbox && About(outbox, r) != b0 ==> (outbox[r].Key() in inbox' <==> outbox[r].Key() in inbox)
  }

  ghost predicate TrailGrows(t: Trail, t': Trail) {
    && t'.reserveRow == t.reserveRow
    && (t.decision.Undecided? || t'.decision == t.decision)
    && (t.outcomeRow.None? || t'.outcomeRow == t.outcomeRow)
    && (t.cancelRow.None? || t'.cancelRow == t.cancelRow)
  }

  ghost predicate OthersKept(s: State, s': State, b0: Id) {
    && s'.b.bookings.Keys == s.b.bookings.Keys && s'.trails.Keys == s.trails.Keys
    && (forall b :: b in s.b.bookings && b != b0 ==> s'.b.bookings[b] == s.b.bookings[b])
    && (forall b :: b in s.trails && b != b0 ==> s'.trails[b] == s.trails[b])
  }

  ghost predicate Progress(s: State, s': State, b0: Id) {
    && b0 in s.b.bookings && b0 in s.trails
    && OthersKept(s, s', b0)
    && SameTerms(s.b.bookings[b0], s'.b.bookings[b0]) && TrailGrows(s.trails[b0], s'.trails[b0])
    && Grows(s.b.outbox, s'.b.outbox) && Grows(s.e.outbox, s'.e.outbox)
    && KeysDistinct(s'.b.outbox) && KeysDistinct(s'.e.outbox)
    && OnlyAbout(s.e.inbox, s'.e.inbox, s.b.outbox, b0) && OnlyAbout(s.b.inbox, s'.b.inbox, s.e.outbox, b0)
    && (forall r :: r in s'.b.outbox && r !in s.b.outbox ==> BookingRowOk(s', r))
    && (forall r :: r in s'.e.outbox && r !in s.e.outbox ==> EventRowOk(s', r))
    && s'.b.records == s.b.records && s'.creates == s.creates && s'.n == s.n
    && s'.cancels.Keys <= s.cancels.Keys && (forall c :: c in s'.cancels ==> s'.cancels[c] == s.cancels[c])
    && BookingOk(s', b0)
  }

  lemma OtherBookingCarries(s: State, s': State, b0: Id, b: Id)
    requires BookingsOk(s) && Progress(s, s', b0) && b in s.b.bookings && b != b0
    ensures BookingOk(s', b)
  {
    assert BookingOk(s, b);
    assert s'.trails[b] == s.trails[b] && s'.b.bookings[b] == s.b.bookings[b];
    var t := s.trails[b];
    assert About(s.b.outbox, t.reserveRow) == b;
    if !t.decision.Undecided? { assert About(s.e.outbox, t.decision.reply) == b; }
  }

  lemma ProgressKeepsBookings(s: State, s': State, b0: Id)
    requires BookingsOk(s) && Progress(s, s', b0)
    ensures BookingsOk(s')
  {
    forall b | b in s'.b.bookings ensures BookingOk(s', b) {
      if b != b0 { OtherBookingCarries(s, s', b0, b); }
    }
  }

  lemma ProgressKeepsRows(s: State, s': State, b0: Id)
    requires RowsOk(s) && Progress(s, s', b0)
    ensures RowsOk(s')
  {
    forall r | r in s'.b.outbox ensures BookingRowOk(s', r) {
      if r in s.b.outbox {
        assert BookingRowOk(s, r);
        assert About(s'.b.outbox, r) == About(s.b.outbox, r);
      }
    }
    forall r | r in s'.e.outbox ensures EventRowOk(s', r) {
      if r in s.e.outbox {
        assert EventRowOk(s, r);
        assert About(s'.e.outbox, r) == About(s.e.outbox, r);
      }
    }
  }

  lemma ProgressKeepsRecords(s: State, s': State, b0: Id)
    requires IdempotencyOk(s) && CancelsOk(s) && Progress(s, s', b0)
    ensures IdempotencyOk(s') && CancelsOk(s')
  {
    forall b | b in s.b.bookings ensures SameTerms(s.b.bookings[b], s'.b.bookings[b]) {}
    forall key | key in s'.b.records ensures RecordOk(s', key) { assert RecordOk(s, key); }
    forall b | b in s'.b.bookings ensures KeyedOk(s', b) { assert KeyedOk(s, b); }
    forall c | c in s'.creates ensures AnswerOk(s', s'.creates[c]) { assert AnswerOk(s, s.creates[c]); }
  }

  lemma ProgressKeepsNotes(s: State, s': State, b0: Id)
    requires NotesOk(s) && Progress(s, s', b0)
    ensures NotesOk(s')
  {
    forall id | id in s'.n.notes ensures NoteOk(s', id) {
      assert NoteOk(s, id);
    }
  }

  lemma ProgressKeeps(s: State, s': State, b0: Id)
    requires Inv(s) && Progress(s, s', b0)
    ensures BookingsOk(s') && RowsOk(s') && IdempotencyOk(s') && CancelsOk(s') && NotesOk(s')
  {
    ProgressKeepsBookings(s, s', b0);
    ProgressKeepsRows(s, s', b0);
    ProgressKeepsRecords(s, s', b0);
    ProgressKeepsNotes(s, s', b0);
  }

  /******* The ledger moves with one booking *******/

  // If only booking b0 moves, the seats held for an event change by what b0 takes or gives back.
  lemma HeldMoves(s: State, s': State, b0: Id, e: Id)
    requires OthersKept(s, s', b0) && b0 in s.b.bookings
    ensures Held(s', e) == Held(s, e) - HeldBy(s, e, b0) + HeldBy(s', e, b0)
  {
    SumUpdate(s.b.bookings.Keys, Holding(s, e), Holding(s', e), b0);
  }

  predicate HoldsSeats(t: Trail) {
    t.decision.Took? && !t.released
  }

  lemma LedgerUntouched(s: State, s': State, b0: Id)
    requires LedgerOk(s) && OthersKept(s, s', b0) && b0 in s.b.bookings && b0 in s.trails && s'.e.events == s.e.events
    requires SameTerms(s.b.bookings[b0], s'.b.bookings[b0]) && HoldsSeats(s'.trails[b0]) == HoldsSeats(s.trails[b0])
    ensures LedgerOk(s')
  {
    forall e ensures Balanced(s', e) {
      assert Balanced(s, e);
      HeldMoves(s, s', b0, e);
    }
  }

  /******* Deliveries *******/

  // Which booking a delivered message speaks about, and what it says of it.
  ghost predicate SpeaksOf(s: State, b: Id) {
    b in s.b.bookings && b in s.trails && BookingOk(s, b)
  }

  ghost predicate ReserveSpeaks(s: State, row: Id, m: Message) {
    var b := m.envelope.payload.bookingId;
    && SpeaksOf(s, b) && s.trails[b].reserveRow == row && row in s.b.outbox && m.Key() == s.b.outbox[row].Key()
    && m.envelope.correlationId == b
    && m.envelope.payload == ReservePayload(b, s.b.bookings[b].eventId, s.b.bookings[b].userId, s.b.bookings[b].quantity)
  }

  ghost predicate CancelSpeaks(s: State, row: Id, m: Message) {
    var b := m.envelope.payload.bookingId;
    && SpeaksOf(s, b) && s.trails[b].cancelRow == Some(row) && row in s.b.outbox && m.Key() == s.b.outbox[row].Key()
    && s.b.bookings[b].status == Bookings.Cancelled
    && m.envelope.payload == SeatsPayload(b, s.b.bookings[b].eventId, s.b.bookings[b].quantity)
  }

  ghost predicate ReplySpeaks(s: State, row: Id, m: Message) {
    var b := m.envelope.payload.bookingId;
    && SpeaksOf(s, b) && row in s.e.outbox && m.Key() == s.e.outbox[row].Key() && m.envelope.correlationId == b
    && m.envelope.payload.eventId == s.b.bookings[b].eventId
    && match m.topic
       case SeatsReserved =>
         s.trails[b].decision == Took(row)
         && m.envelope.payload == SeatsPayload(b, s.b.bookings[b].eventId, s.b.bookings[b].quantity)
       case SeatReservationFailed =>
         s.trails[b].decision == Refused(row)
         && m.envelope.payload == s.e.outbox[row].envelope.payload && m.envelope.payload.FailurePayload?
       case _ => false
  }

  lemma DeliveredReserve(s: State, row: Id, m: Message)
    requires BookingsOk(s) && RowsOk(s) && Delivered(s.b.outbox, row, m, ReserveSeats)
    ensures ReserveSpeaks(s, row, m)
  {
  }

  lemma DeliveredCancel(s: State, row: Id, m: Message)
    requires BookingsOk(s) && RowsOk(s) && Delivered(s.b.outbox, row, m, BookingCancelled)
    ensures CancelSpeaks(s, row, m)
  {
    assert BookingRowOk(s, row);
    assert BookingOk(s, About(s.b.outbox, row));
  }

  lemma DeliveredReply(s: State, row: Id, m: Message, topic: Topic)
    requires BookingsOk(s) && RowsOk(s) && Delivered(s.e.outbox, row, m, topic)
    ensures ReplySpeaks(s, row, m)
  {
  }

  /******* OnReserve *******/

  // The state after event-service decided about b, replied in a new row and left the event table as `events`.
  function Decided(s: State, b: Id, events: map<Id, Event>, decision: Decision, message: Message): State
    requires b in s.trails && !decision.Undecided? && s.trails[b].reserveRow in s.b.outbox
  {
    s.(e := EventDb(events, s.e.inbox + {s.b.outbox[s.trails[b].reserveRow].Key()}, s.e.outbox[decision.reply := message]),
       trails := s.trails[b := s.trails[b].(decision := decision)])
  }

  ghost predicate Replies(s: State, b: Id, decision: Decision, message: Message)
    requires b in s.b.bookings
  {
    var k := s.b.bookings[b];
    && !decision.Undecided? && decision.reply !in s.e.outbox
    && (forall r :: r in s.e.outbox ==> s.e.outbox[r].Key() != message.Key())
    && message.Key() !in s.b.inbox && message.envelope.correlationId == b
    && message.topic == (if decision.Took? then SeatsReserved else SeatReservationFailed)
    && (decision.Took? ==> message.envelope.payload == SeatsPayload(b, k.eventId, k.quantity))
    && (decision.Refused? ==>
          message.envelope.payload.FailurePayload?
          && message.envelope.payload == FailurePayload(b, k.eventId, message.envelope.payload.reason))
  }

  predicate Offers(db: EventDb, eventId: Id, quantity: int) {
    eventId in db.events && db.events[eventId].available >= quantity
  }

  function Taking(db: EventDb, eventId: Id, quantity: int): map<Id, Event>
    requires eventId in db.events
  {
    db.events[eventId := db.events[eventId].(available := db.events[eventId].available - quantity)]
  }

  lemma SeatsAreTaken(s: State, row: Id, m: Message, success: Draw, failure: Draw, seen: bool)
    requires m.WellTyped() && m.topic == ReserveSeats && ReserveSpeaks(s, row, m) && m.Key() !in s.e.inbox
    requires FreshForEvents(s, success) && Offers(s.e, m.envelope.payload.eventId, m.envelope.payload.quantity)
    ensures var b, p := m.envelope.payload.bookingId, m.envelope.payload;
            var message := SuccessMessage(m, success.messageId, success.at);
            && Replies(s, b, Took(success.row), message)
            && ApplyReserve(s, m, success, failure, seen)
               == Decided(s, b, Taking(s.e, p.eventId, p.quantity), Took(success.row), message)
  {
  }

  lemma SeatsAreRefused(s: State, row: Id, m: Message, success: Draw, failure: Draw, seen: bool)
    requires m.WellTyped() && m.topic == ReserveSeats && ReserveSpeaks(s, row, m) && m.Key() !in s.e.inbox
    requires FreshForEvents(s, failure) && !Offers(s.e, m.envelope.payload.eventId, m.envelope.payload.quantity)
    ensures var b, p := m.envelope.payload.bookingId, m.envelope.payload;
            var f := FailureRow(failure.row, failure.messageId, m.envelope.correlationId, b, failure.at);
            var message := FailureMessage(f, p.eventId, if seen then InsufficientSeats else EventNotFound);
            && Replies(s, b, Refused(failure.row), message)
            && ApplyReserve(s, m, success, failure, seen) == Decided(s, b, s.e.events, Refused(failure.row), message)
  {
  }

  lemma DecidedProgress(s: State, b: Id, events: map<Id, Event>, decision: Decision, message: Message)
    requires KeysDistinct(s.b.outbox) && KeysDistinct(s.e.outbox) && SpeaksOf(s, b) && s.trails[b].decision.Undecided?
    requires Replies(s, b, decision, message)
    ensures Progress(s, Decided(s, b, events, decision, message), b)
  {
    var s' := Decided(s, b, events, decision, message);
    assert About(s.b.outbox, s.trails[b].reserveRow) == b;
    assert StatusOk(s', b, s'.b.bookings[b], s'.trails[b]);
    assert BookingOk(s', b);
    assert EventRowOk(s', decision.reply);
  }

  lemma TakenKeepsLedger(s: State, s': State, b: Id)
    requires LedgerOk(s) && OthersKept(s, s', b) && b in s.b.bookings && b in s.trails && s'.b == s.b
    requires s.trails[b].decision.Undecided? && s'.trails[b].decision.Took? && !s'.trails[b].released
    requires s.b.bookings[b].quantity > 0 && Offers(s.e, s.b.bookings[b].eventId, s.b.bookings[b].quantity)
    requires s'.e.events == Taking(s.e, s.b.bookings[b].eventId, s.b.bookings[b].quantity)
    ensures LedgerOk(s')
  {
    forall e ensures Balanced(s', e) {
      assert Balanced(s, e);
      HeldMoves(s, s', b, e);
    }
  }

  lemma OnReserveKeepsInv(s: State, row: Id, m: Message, success: Draw, failure: Draw, seen: bool)
    requires Inv(s) && Enabled(s, OnReserve(row, m, success, failure, seen))
    ensures Inv(ApplyReserve(s, m, success, failure, seen))
  {
    var b, p := m.envelope.payload.bookingId, m.envelope.payload;
    var s' := ApplyReserve(s, m, success, failure, seen);
    DeliveredReserve(s, row, m);
    if m.Key() in s.e.inbox {
      assert s' == s;
    } else if Offers(s.e, p.eventId, p.quantity) {
      SeatsAreTaken(s, row, m, success, failure, seen);
      var message := SuccessMessage(m, success.messageId, success.at);
      DecidedProgress(s, b, Taking(s.e, p.eventId, p.quantity), Took(success.row), message);
      ProgressKeeps(s, s', b);
      TakenKeepsLedger(s, s', b);
    } else {
      SeatsAreRefused(s, row, m, success, failure, seen);
      var f := FailureRow(failure.row, failure.messageId, m.envelope.correlationId, b, failure.at);
      var message := FailureMessage(f, p.eventId, if seen then InsufficientSeats else EventNotFound);
      DecidedProgress(s, b, s.e.events, Refused(failure.row), message);
      ProgressKeeps(s, s', b);
      LedgerUntouched(s, s', b);
    }
  }

  /******* OnCancelled *******/

  // The heart of the ledger: the first delivery of a cancellation finds its seats still taken.
  lemma SeatsAreStillTaken(s: State, b: Id)
    requires BookingsOk(s) && SpeaksOf(s, b) && s.trails[b].decision.Took? && !s.trails[b].released
    requires Balanced(s, s.b.bookings[b].eventId)
    ensures var e := s.b.bookings[b].eventId;
            e in s.e.events && s.e.events[e].available + s.b.bookings[b].quantity <= s.e.events[e].total
  {
    var e := s.b.bookings[b].eventId;
    forall d | d in s.b.bookings ensures 0 <= Holding(s, e)(d) { assert BookingOk(s, d); }
    SumTerm(s.b.bookings.Keys, Holding(s, e), b);
  }

  function Giving(db: EventDb, eventId: Id, quantity: int): map<Id, Event>
    requires eventId in db.events
  {
    db.events[eventId := db.events[eventId].(available := db.events[eventId].available + quantity)]
  }

  function GivenBack(s: State, b: Id, key: Id, events: map<Id, Event>): State
    requires b in s.trails
  {
    s.(e := s.e.(events := events, inbox := s.e.inbox + {key}), trails := s.trails[b := s.trails[b].(released := true)])
  }

  lemma ReleaseIsAccepted(s: State, row: Id, m: Message)
    requires m.WellTyped() && m.topic == BookingCancelled && CancelSpeaks(s, row, m) && m.Key() !in s.e.inbox
    requires BookingsOk(s) && Balanced(s, m.envelope.payload.eventId)
    ensures var p := m.envelope.payload;
            && p.eventId in s.e.events && ReleaseTx(s, m).result.SeatsReleased?
            && ApplyRelease(s, m) == GivenBack(s, p.bookingId, m.Key(), Giving(s.e, p.eventId, p.quantity))
  {
    SeatsAreStillTaken(s, m.envelope.payload.bookingId);
  }

  lemma GivenBackProgress(s: State, row: Id, m: Message, events: map<Id, Event>)
    requires KeysDistinct(s.b.outbox) && KeysDistinct(s.e.outbox) && s.trails.Keys == s.b.bookings.Keys
    requires CancelSpeaks(s, row, m)
    ensures Progress(s, GivenBack(s, m.envelope.payload.bookingId, m.Key(), events), m.envelope.payload.bookingId)
  {
    var b := m.envelope.payload.bookingId;
    var s' := GivenBack(s, b, m.Key(), events);
    assert About(s.b.outbox, row) == b;
    assert About(s.b.outbox, s.trails[b].reserveRow) == b;
    assert BookingOk(s', b);
  }

  lemma GivenBackBalances(s: State, s': State, b: Id, e: Id)
    requires Balanced(s, e) && OthersKept(s, s', b) && SpeaksOf(s, b) && s'.b == s.b
    requires s.trails[b].decision.Took? && !s.trails[b].released && s'.trails[b] == s.trails[b].(released := true)
    requires var k := s.b.bookings[b];
             && k.eventId in s.e.events && k.quantity <= Inventory.Reserved(s.e.events[k.eventId]) && 0 < k.quantity
             && s'.e.events == Giving(s.e, k.eventId, k.quantity)
    ensures Balanced(s', e)
  {
    HeldMoves(s, s', b, e);
  }

  lemma GivenBackKeepsLedger(s: State, s': State, b: Id)
    requires LedgerOk(s) && BookingsOk(s) && OthersKept(s, s', b) && SpeaksOf(s, b) && s'.b == s.b
    requires s.trails[b].decision.Took? && !s.trails[b].released && s'.trails[b] == s.trails[b].(released := true)
    requires s.b.bookings[b].eventId in s.e.events
    requires s'.e.events == Giving(s.e, s.b.bookings[b].eventId, s.b.bookings[b].quantity)
    ensures LedgerOk(s')
  {
    assert Balanced(s, s.b.bookings[b].eventId) && BookingOk(s, b);
    SeatsAreStillTaken(s, b);
    forall e ensures Balanced(s', e) {
      assert Balanced(s, e);
      GivenBackBalances(s, s', b, e);
    }
  }

  lemma OnCancelledKeepsInv(s: State, row: Id, m: Message)
    requires Inv(s) && Enabled(s, OnCancelled(row, m))
    ensures Inv(ApplyRelease(s, m))
  {
    var b := m.envelope.payload.bookingId;
    var s' := ApplyRelease(s, m);
    if m.Key() in s.e.inbox {
      assert s' == s;
    } else {
      DeliveredCancel(s, row, m);
      assert Balanced(s, m.envelope.payload.eventId);
      ReleaseIsAccepted(s, row, m);
      GivenBackProgress(s, row, m, s'.e.events);
      ProgressKeeps(s, s', b);
      GivenBackKeepsLedger(s, s', b);
    }
  }

  /******* OnSeatsReserved and OnSeatsRefused *******/

  // The state after booking-service carried out the reply in row `row` of the event outbox.
  function CarriedOut(s: State, b: Id, row: Id, status: Bookings.Status, newRow: Id, message: Message): State
    requires b in s.b.bookings && b in s.trails && row in s.e.outbox
  {
    s.(b := s.b.(bookings := s.b.bookings[b := s.b.bookings[b].(status := status)],
                 inbox := s.b.inbox + {s.e.outbox[row].Key()}, outbox := s.b.outbox[newRow := message]),
       trails := s.trails[b := s.trails[b].(outcomeRow := Some(newRow))])
  }

  ghost predicate Fits(s: State, draw: Draw, message: Message) {
    FreshForBookings(s, draw) && message.Key() == draw.messageId
  }

  // The first delivery of a reply finds its booking waiting for it.
  lemma ReplyIsAccepted(s: State, row: Id, m: Message, draw: Draw)
    requires m.WellTyped() && ReplySpeaks(s, row, m) && m.Key() !in s.b.inbox && FreshForBookings(s, draw)
    ensures var b := m.envelope.payload.bookingId;
            var status := if m.topic == SeatsReserved then Confirmed else Failed;
            var message := if m.topic == SeatsReserved then ConfirmedMessage(m, draw.messageId, draw.at)
                           else FailedMessage(m, draw.messageId, draw.at);
            && s.b.bookings[b].status == Pending
            && ReplyTx(s, m, draw).result.Applied?
            && ApplyReply(s, m, draw) == CarriedOut(s, b, row, status, draw.row, message)
  {
  }

  lemma CarriedOutGrows(s: State, row: Id, m: Message, draw: Draw)
    requires KeysDistinct(s.b.outbox) && s.trails.Keys == s.b.bookings.Keys
    requires m.WellTyped() && ReplySpeaks(s, row, m) && m.Key() !in s.b.inbox && FreshForBookings(s, draw)
    ensures var b, s' := m.envelope.payload.bookingId, ApplyReply(s, m, draw);
            && OthersKept(s, s', b) && Grows(s.b.outbox, s'.b.outbox) && KeysDistinct(s'.b.outbox)
            && s'.b.outbox.Keys == s.b.outbox.Keys + {draw.row} && BookingRowOk(s', draw.row)
  {
    ReplyIsAccepted(s, row, m, draw);
  }

  lemma CarriedOutInbox(s: State, row: Id, m: Message, draw: Draw)
    requires KeysDistinct(s.e.outbox)
    requires m.WellTyped() && ReplySpeaks(s, row, m) && m.Key() !in s.b.inbox && FreshForBookings(s, draw)
    ensures OnlyAbout(s.b.inbox, ApplyReply(s, m, draw).b.inbox, s.e.outbox, m.envelope.payload.bookingId)
  {
    ReplyIsAccepted(s, row, m, draw);
    assert About(s.e.outbox, row) == m.envelope.payload.bookingId;
  }

  lemma CarriedOutProgress(s: State, row: Id, m: Message, draw: Draw)
    requires KeysDistinct(s.b.outbox) && KeysDistinct(s.e.outbox) && s.trails.Keys == s.b.bookings.Keys
    requires m.WellTyped() && ReplySpeaks(s, row, m) && m.Key() !in s.b.inbox && FreshForBookings(s, draw)
    ensures Progress(s, ApplyReply(s, m, draw), m.envelope.payload.bookingId)
  {
    CarriedOutBooking(s, row, m, draw);
    CarriedOutGrows(s, row, m, draw);
    CarriedOutInbox(s, row, m, draw);
    ReplyIsAccepted(s, row, m, draw);
  }

  lemma CarriedOutBooking(s: State, row: Id, m: Message, draw: Draw)
    requires m.WellTyped() && ReplySpeaks(s, row, m) && m.Key() !in s.b.inbox && FreshForBookings(s, draw)
    ensures var b := m.envelope.payload.bookingId;
            var s' := ApplyReply(s, m, draw);
            b in s'.b.bookings && b in s'.trails && BookingOk(s', b)
  {
    var b := m.envelope.payload.bookingId;
    var s' := ApplyReply(s, m, draw);
    ReplyIsAccepted(s, row, m, draw);
    assert About(s.b.outbox, s.trails[b].reserveRow) == b;
    assert StatusOk(s', b, s'.b.bookings[b], s'.trails[b]);
  }

  lemma CarriedOutLedger(s: State, row: Id, m: Message, draw: Draw)
    requires LedgerOk(s) && s.trails.Keys == s.b.bookings.Keys
    requires m.WellTyped() && ReplySpeaks(s, row, m) && m.Key() !in s.b.inbox && FreshForBookings(s, draw)
    ensures LedgerOk(ApplyReply(s, m, draw))
  {
    ReplyIsAccepted(s, row, m, draw);
    LedgerUntouched(s, ApplyReply(s, m, draw), m.envelope.payload.bookingId);
  }

  lemma OnReplyKeepsInv(s: State, row: Id, m: Message, draw: Draw, topic: Topic)
    requires Inv(s) && topic in {SeatsReserved, SeatReservationFailed}
    requires Delivered(s.e.outbox, row, m, topic) && FreshForBookings(s, draw)
    ensures Inv(ApplyReply(s, m, draw))
  {
    var b := m.envelope.payload.bookingId;
    var s' := ApplyReply(s, m, draw);
    if m.Key() in s.b.inbox {
      assert s' == s;
    } else {
      DeliveredReply(s, row, m, topic);
      CarriedOutProgress(s, row, m, draw);
      ProgressKeeps(s, s', b);
      CarriedOutLedger(s, row, m, draw);
    }
  }

  /******* Cancel *******/

  function CancelledState(s: State, c: Id, b: Id, draw: Draw, message: Message): State
    requires b in s.b.bookings && b in s.trails
  {
    s.(b := s.b.(bookings := s.b.bookings[b := s.b.bookings[b].(status := Bookings.Cancelled)],
                 outbox := s.b.outbox[draw.row := message]),
       cancels := s.cancels - {c},
       trails := s.trails[b := s.trails[b].(cancelRow := Some(draw.row))])
  }

  lemma CancelProgress(s: State, c: Id, b: Id, draw: Draw, message: Message)
    requires KeysDistinct(s.b.outbox) && KeysDistinct(s.e.outbox) && s.trails.Keys == s.b.bookings.Keys && SpeaksOf(s, b)
    requires s.b.bookings[b].status == Confirmed && Fits(s, draw, message)
    requires message.topic == BookingCancelled && message.envelope.correlationId == b
    requires message.envelope.payload == SeatsPayload(b, s.b.bookings[b].eventId, s.b.bookings[b].quantity)
    ensures Progress(s, CancelledState(s, c, b, draw, message), b)
  {
    var s' := CancelledState(s, c, b, draw, message);
    assert About(s.b.outbox, s.trails[b].reserveRow) == b;
    assert StatusOk(s', b, s'.b.bookings[b], s'.trails[b]);
    assert BookingOk(s', b);
    assert BookingRowOk(s', draw.row);
  }

  lemma CancelLedger(s: State, c: Id, b: Id, draw: Draw, message: Message)
    requires LedgerOk(s) && b in s.b.bookings && b in s.trails && s.trails.Keys == s.b.bookings.Keys
    ensures LedgerOk(CancelledState(s, c, b, draw, message))
  {
    LedgerUntouched(s, CancelledState(s, c, b, draw, message), b);
  }

  // The message was composed from an earlier read; the terms of a booking never change, so it is still right.
  lemma CancelOutcome(s: State, c: Id, draw: Draw)
    requires s.trails.Keys == s.b.bookings.Keys && CancelsOk(s) && c in s.cancels && FreshForBookings(s, draw)
    ensures var b := s.cancels[c].booking;
            var message := CancelMessage(b, s.cancels[c].seen, draw.messageId, draw.at);
            && b in s.b.bookings
            && message.envelope.payload == SeatsPayload(b, s.b.bookings[b].eventId, s.b.bookings[b].quantity)
            && ApplyCancel(s, c, draw) == if s.b.bookings[b].status == Confirmed then CancelledState(s, c, b, draw, message)
                                          else s.(cancels := s.cancels - {c})
  {
  }

  lemma CancelKeepsInv(s: State, c: Id, draw: Draw)
    requires Inv(s) && Enabled(s, Cancel(c, draw))
    ensures Inv(ApplyCancel(s, c, draw))
  {
    var b := s.cancels[c].booking;
    CancelOutcome(s, c, draw);
    if s.b.bookings[b].status == Confirmed {
      var message := CancelMessage(b, s.cancels[c].seen, draw.messageId, draw.at);
      assert BookingOk(s, b);
      CancelProgress(s, c, b, draw, message);
      ProgressKeeps(s, CancelledState(s, c, b, draw, message), b);
      CancelLedger(s, c, b, draw, message);
    } else {
      CancelsKeepInv(s, s.(cancels := s.cancels - {c}));
    }
  }

  /******* Steps that leave bookings and rows alone *******/

  // Nothing changes but the event table, the notifications and the calls in progress.
  ghost predicate SameCore(s: State, s': State) {
    s'.b == s.b && s'.trails == s.trails && s'.e.inbox == s.e.inbox && s'.e.outbox == s.e.outbox
  }

  lemma CoreBookings(s: State, s': State)
    requires BookingsOk(s) && SameCore(s, s')
    ensures BookingsOk(s')
  {
    forall b | b in s'.b.bookings ensures BookingOk(s', b) { assert BookingOk(s, b); }
  }

  lemma CoreRows(s: State, s': State)
    requires RowsOk(s) && SameCore(s, s')
    ensures RowsOk(s')
  {
  }

  lemma CoreHeld(s: State, s': State, e: Id)
    requires SameCore(s, s')
    ensures Held(s', e) == Held(s, e)
  {
    SumSame(s.b.bookings.Keys, Holding(s, e), Holding(s', e));
  }

  lemma CoreLedger(s: State, s': State)
    requires LedgerOk(s) && SameCore(s, s') && s'.e.events == s.e.events
    ensures LedgerOk(s')
  {
    forall e ensures Balanced(s', e) {
      assert Balanced(s, e);
      CoreHeld(s, s', e);
    }
  }

  ghost predicate AnswersOk(s: State) {
    forall c :: c in s.creates ==>
      AnswerOk(s, s.creates[c]) && (s.creates[c].state.Conflicted? ==> HasKey(s.creates[c].request))
  }

  lemma CoreRecords(s: State, s': State)
    requires IdempotencyOk(s) && SameCore(s, s') && AnswersOk(s')
    ensures IdempotencyOk(s')
  {
  }

  lemma CoreAnswers(s: State, s': State)
    requires IdempotencyOk(s) && SameCore(s, s') && s'.creates == s.creates
    ensures AnswersOk(s')
  {
  }

  lemma CoreNotes(s: State, s': State)
    requires NotesOk(s) && SameCore(s, s') && s'.n == s.n
    ensures NotesOk(s')
  {
  }

  lemma CallsKeepInv(s: State, s': State)
    requires Inv(s) && s' == s.(creates := s'.creates, cancels := s'.cancels) && CancelsOk(s') && AnswersOk(s')
    ensures Inv(s')
  {
    CoreBookings(s, s');
    CoreRows(s, s');
    CoreLedger(s, s');
    CoreRecords(s, s');
    CoreNotes(s, s');
  }

  lemma LookAnswers(s: State, c: Id, request: CreateRequest)
    requires IdempotencyOk(s) && c !in s.creates
    ensures AnswersOk(ApplyLook(s, c, request))
  {
    var s' := ApplyLook(s, c, request);
    forall d | d in s'.creates ensures AnswerOk(s', s'.creates[d]) {
      if d != c { assert AnswerOk(s, s.creates[d]); }
    }
  }

  lemma LookKeepsInv(s: State, c: Id, request: CreateRequest)
    requires Inv(s) && c !in s.creates
    ensures Inv(ApplyLook(s, c, request))
  {
    LookAnswers(s, c, request);
    CallsKeepInv(s, ApplyLook(s, c, request));
  }

  // After a unique violation the record is there: the last resort of the fallback is never needed.
  lemma ResolveFindsRecord(s: State, c: Id)
    requires IdempotencyOk(s) && InCall(s, c, Conflicted)
    ensures HasKey(s.creates[c].request) && !Lookup(s.b, s.creates[c].request).Unanswered?
  {
  }

  lemma ResolveAnswers(s: State, c: Id)
    requires IdempotencyOk(s) && InCall(s, c, Conflicted)
    ensures AnswersOk(ApplyResolve(s, c))
  {
  }

  lemma ResolveKeepsInv(s: State, c: Id)
    requires Inv(s) && InCall(s, c, Conflicted)
    ensures Inv(ApplyResolve(s, c))
  {
    ResolveAnswers(s, c);
    CallsKeepInv(s, ApplyResolve(s, c));
  }

  lemma CancelsKeepInv(s: State, s': State)
    requires Inv(s) && s' == s.(cancels := s'.cancels) && CancelsOk(s')
    ensures Inv(s')
  {
    CoreAnswers(s, s');
    CallsKeepInv(s, s');
  }

  lemma ReadForCancelKeepsInv(s: State, c: Id, id: Id)
    requires Inv(s) && c !in s.cancels && id in s.b.bookings
    ensures Inv(s.(cancels := s.cancels[c := CancelCall(id, s.b.bookings[id])]))
  {
    var s' := s.(cancels := s.cancels[c := CancelCall(id, s.b.bookings[id])]);
    NewCancelOk(s, c, id);
    CancelsKeepInv(s, s');
  }

  lemma NewCancelOk(s: State, c: Id, id: Id)
    requires CancelsOk(s) && id in s.b.bookings
    ensures CancelsOk(s.(cancels := s.cancels[c := CancelCall(id, s.b.bookings[id])]))
  {
  }

  /******* Create *******/

  function CreatedState(s: State, c: Id, id: Id, draw: Draw): State
    requires c in s.creates
  {
    var request := s.creates[c].request;
    var booking := Booking(request.userId, request.eventId, request.quantity, Pending, request.key);
    var dto := BookingDto(id, booking);
    s.(b := s.b.(bookings := s.b.bookings[id := booking],
                 records := if HasKey(request) then
                              s.b.records[request.key.value := IdempotencyRecord(id, request.fingerprint, dto)]
                            else s.b.records,
                 outbox := s.b.outbox[draw.row := ReserveMessage(id, request, draw.messageId, draw.at)]),
       creates := s.creates[c := s.creates[c].(state := Finished(Returned(dto)))],
       trails := s.trails[id := Trail(draw.row, Undecided, None, None, false)])
  }

  ghost predicate Creating(s: State, c: Id, id: Id, draw: Draw) {
    && Enabled(s, Create(c, id, draw))
    && s.creates[c].request.quantity > 0 && !KeyTaken(s.b, s.creates[c].request)
  }

  // With fresh identifiers the only unique index that can reject a booking is that of its key.
  lemma CreateOutcome(s: State, c: Id, id: Id, draw: Draw)
    requires Enabled(s, Create(c, id, draw))
    ensures var request := s.creates[c].request;
            ApplyCreate(s, c, id, draw) ==
              if Creating(s, c, id, draw) then CreatedState(s, c, id, draw)
              else
                s.(creates := s.creates[c := s.creates[c].(state :=
                     if request.quantity > 0 && HasKey(request) then Conflicted else Errored)])
  {
  }

  lemma CreatedBookings(s: State, c: Id, id: Id, draw: Draw)
    requires BookingsOk(s) && Creating(s, c, id, draw)
    ensures BookingsOk(CreatedState(s, c, id, draw))
  {
    var s' := CreatedState(s, c, id, draw);
    forall b | b in s'.b.bookings ensures BookingOk(s', b) {
      if b == id { CreatedBooking(s, c, id, draw); } else { OtherBooking(s, c, id, draw, b); }
    }
  }

  lemma CreatedBooking(s: State, c: Id, id: Id, draw: Draw)
    requires Creating(s, c, id, draw)
    ensures BookingOk(CreatedState(s, c, id, draw), id)
  {
  }

  lemma OtherBooking(s: State, c: Id, id: Id, draw: Draw, b: Id)
    requires Creating(s, c, id, draw) && b in s.b.bookings && b in s.trails && BookingOk(s, b)
    ensures BookingOk(CreatedState(s, c, id, draw), b)
  {
  }

  lemma CreatedRows(s: State, c: Id, id: Id, draw: Draw)
    requires RowsOk(s) && NotesOk(s) && Creating(s, c, id, draw)
    ensures RowsOk(CreatedState(s, c, id, draw)) && NotesOk(CreatedState(s, c, id, draw))
  {
    var s' := CreatedState(s, c, id, draw);
    forall r | r in s'.b.outbox ensures BookingRowOk(s', r) {
      if r != draw.row { assert BookingRowOk(s, r); }
    }
    forall r | r in s'.e.outbox ensures EventRowOk(s', r) { assert EventRowOk(s, r); }
    forall n | n in s'.n.notes ensures NoteOk(s', n) { assert NoteOk(s, n); }
  }

  lemma CreatedLedger(s: State, c: Id, id: Id, draw: Draw)
    requires LedgerOk(s) && Creating(s, c, id, draw)
    ensures LedgerOk(CreatedState(s, c, id, draw))
  {
    var s' := CreatedState(s, c, id, draw);
    assert s'.b.bookings.Keys == s.b.bookings.Keys + {id};
    forall e ensures Balanced(s', e) {
      assert Balanced(s, e);
      SumInsert(s.b.bookings.Keys, Holding(s, e), Holding(s', e), id);
    }
  }

  lemma CreatedRecords(s: State, c: Id, id: Id, draw: Draw)
    requires IdempotencyOk(s) && CancelsOk(s) && Creating(s, c, id, draw)
    ensures IdempotencyOk(CreatedState(s, c, id, draw)) && CancelsOk(CreatedState(s, c, id, draw))
  {
    var s' := CreatedState(s, c, id, draw);
    forall key | key in s'.b.records ensures RecordOk(s', key) {
      if key in s.b.records { assert RecordOk(s, key); }
    }
    forall b | b in s'.b.bookings ensures KeyedOk(s', b) {
      if b != id { assert KeyedOk(s, b); }
    }
    CreatedAnswers(s, c, id, draw);
  }

  lemma CreatedAnswers(s: State, c: Id, id: Id, draw: Draw)
    requires IdempotencyOk(s) && Creating(s, c, id, draw)
    ensures var s' := CreatedState(s, c, id, draw); forall d :: d in s'.creates ==> AnswerOk(s', s'.creates[d])
  {
    var s' := CreatedState(s, c, id, draw);
    forall d | d in s'.creates ensures AnswerOk(s', s'.creates[d]) {
      if d != c { assert AnswerOk(s, s.creates[d]); }
    }
  }

  lemma RefusedCreateAnswers(s: State, c: Id, id: Id, draw: Draw)
    requires IdempotencyOk(s) && Enabled(s, Create(c, id, draw)) && !Creating(s, c, id, draw)
    ensures AnswersOk(ApplyCreate(s, c, id, draw))
  {
  }

  lemma CreateKeepsInv(s: State, c: Id, id: Id, draw: Draw)
    requires Inv(s) && Enabled(s, Create(c, id, draw))
    ensures Inv(ApplyCreate(s, c, id, draw))
  {
    CreateOutcome(s, c, id, draw);
    if Creating(s, c, id, draw) {
      CreatedBookings(s, c, id, draw);
      CreatedRows(s, c, id, draw);
      CreatedLedger(s, c, id, draw);
      CreatedRecords(s, c, id, draw);
    } else {
      RefusedCreateAnswers(s, c, id, draw);
      CallsKeepInv(s, ApplyCreate(s, c, id, draw));
    }
  }

  /******* Notify *******/

  lemma NotifiedNotes(s: State, row: Id, m: Message)
    requires RowsOk(s) && NotesOk(s) && Enabled(s, Notify(row, m))
    ensures NotesOk(Apply(s, Notify(row, m)))
  {
  }

  lemma NotesKeepInv(s: State, s': State)
    requires Inv(s) && s' == s.(n := s'.n) && NotesOk(s')
    ensures Inv(s')
  {
    CoreBookings(s, s');
    CoreRows(s, s');
    CoreLedger(s, s');
    CoreAnswers(s, s');
    CoreRecords(s, s');
  }

  lemma NotifyKeepsInv(s: State, row: Id, m: Message)
    requires Inv(s) && Enabled(s, Notify(row, m))
    ensures Inv(Apply(s, Notify(row, m)))
  {
    NotifiedNotes(s, row, m);
    NotesKeepInv(s, Apply(s, Notify(row, m)));
  }

  /******* Event administration *******/

  ghost predicate KeepsReservations(events: map<Id, Event>, events': map<Id, Event>) {
    && (forall e :: e in events' ==> EventOk(events'[e]))
    && (forall e :: e in events' ==>
          Inventory.Reserved(events'[e]) == if e in events then Inventory.Reserved(events[e]) else 0)
    && (forall e :: e in events && e !in events' ==> Inventory.Reserved(events[e]) == 0)
  }

  lemma EventsKeepLedger(s: State, s': State)
    requires LedgerOk(s) && SameCore(s, s') && KeepsReservations(s.e.events, s'.e.events)
    ensures LedgerOk(s')
  {
    forall e ensures Balanced(s', e) {
      assert Balanced(s, e);
      CoreHeld(s, s', e);
    }
  }

  // Creating, resizing and deleting events keeps the number of reserved seats of every event.
  lemma EventsKeepInv(s: State, events: map<Id, Event>)
    requires Inv(s) && KeepsReservations(s.e.events, events)
    ensures Inv(s.(e := s.e.(events := events)))
  {
    var s' := s.(e := s.e.(events := events));
    CoreBookings(s, s');
    CoreRows(s, s');
    EventsKeepLedger(s, s');
    CoreAnswers(s, s');
    CoreRecords(s, s');
    CoreNotes(s, s');
  }

  function AdminEvents(db: EventDb, step: Step): map<Id, Event> {
    match step
    case AddEvent(id, total) => CreateEvent(db, id, total).db.events
    case ChangeEvent(id, total) => UpdateEvent(db, id, total).db.events
    case RemoveEvent(id) => DeleteEvent(db, id).db.events
    case _ => db.events
  }

  lemma AdminKeepsReservations(db: EventDb, step: Step)
    requires forall e :: e in db.events ==> EventOk(db.events[e])
    ensures KeepsReservations(db.events, AdminEvents(db, step))
  {
  }

  lemma AdminStep(s: State, step: Step)
    requires step.AddEvent? || step.ChangeEvent? || step.RemoveEvent?
    ensures Apply(s, step) == s.(e := s.e.(events := AdminEvents(s.e, step)))
  {
  }

  lemma AdminKeepsInv(s: State, step: Step)
    requires Inv(s) && (step.AddEvent? || step.ChangeEvent? || step.RemoveEvent?)
    ensures Inv(Apply(s, step))
  {
    forall e | e in s.e.events ensures EventOk(s.e.events[e]) { assert Balanced(s, e); }
    AdminKeepsReservations(s.e, step);
    AdminStep(s, step);
    EventsKeepInv(s, AdminEvents(s.e, step));
  }

  /******* Every step, every run *******/

  lemma StartInv()
    ensures Inv(START)
  {
  }

  lemma StepKeepsInv(s: State, step: Step)
    requires Inv(s) && Enabled(s, step)
    ensures Inv(Apply(s, step))
  {
    match step
    case Look(c, request) => LookKeepsInv(s, c, request);
    case Create(c, id, draw) => CreateKeepsInv(s, c, id, draw);
    case Resolve(c) => ResolveKeepsInv(s, c);
    case ReadForCancel(c, id) => ReadForCancelKeepsInv(s, c, id);
    case Cancel(c, draw) => CancelKeepsInv(s, c, draw);
    case OnReserve(row, m, success, failure, seen) => OnReserveKeepsInv(s, row, m, success, failure, seen);
    case OnCancelled(row, m) => OnCancelledKeepsInv(s, row, m);
    case OnSeatsReserved(row, m, draw) => OnReplyKeepsInv(s, row, m, draw, SeatsReserved);
    case OnSeatsRefused(row, m, draw) => OnReplyKeepsInv(s, row, m, draw, SeatReservationFailed);
    case Notify(row, m) => NotifyKeepsInv(s, row, m);
    case _ => AdminKeepsInv(s, step);
  }

  lemma {:induction false} RunKeepsInv(s: State, steps: seq<Step>)
    requires Inv(s) && Run(s, steps)
    ensures Inv(After(s, steps))
    decreases steps
  {
    if steps != [] {
      StepKeepsInv(s, steps[0]);
      RunKeepsInv(Apply(s, steps[0]), steps[1..]);
    }
  }

  lemma ReachableInv(s: State)
    requires Reachable(s)
    ensures Inv(s)
  {
    var steps :| Run(START, steps) && After(START, steps) == s;
    StartInv();
    RunKeepsInv(START, steps);
  }
}
