/** One booking all the way round: the theorems about reachable states speak of runs like this one. */
module SagaExample {
  import opened Common
  import opened Messages
  import opened Bookings
  import opened Inventory
  import opened Saga
  import opened SagaTheorems

  const REQUEST: CreateRequest := CreateRequest(3, 5, 2, Some("key"), "v1")
  const RESERVE: Message := ReserveMessage(1, REQUEST, 21, 0)
  const SUCCESS: Message := Message(SeatsReserved, Envelope(41, 1, 0, SeatsPayload(1, 5, 2)))
  const CONFIRMED: Message := Message(BookingConfirmed, Envelope(22, 1, 0, SeatsPayload(1, 5, 2)))
  const CANCEL: Message := Message(BookingCancelled, Envelope(23, 1, 0, SeatsPayload(1, 5, 2)))

  function Booked(status: Bookings.Status): map<Id, Booking> {
    map[1 := Booking(3, 5, 2, status, Some("key"))]
  }

  const CALL: CreateCall := CreateCall(REQUEST, Finished(Returned(BookingDto(1, Booked(Pending)[1]))))
  const RECORD: IdempotencyRecord := IdempotencyRecord(1, "v1", BookingDto(1, Booked(Pending)[1]))

  // The states of the run, from the new event to the released booking.
  function Snapshot(bookings: map<Id, Booking>, inbox: set<Id>, rows: map<Id, Message>, e: EventDb,
                    cancels: map<Id, CancelCall>, trail: Trail): State
  {
    State(BookingDb(bookings, map["key" := RECORD], inbox, rows), e, START.n, map[0 := CALL], cancels, map[1 := trail])
  }

  const OPEN: State := START.(e := EventDb(map[5 := Event(10, 10)], {}, map[]))
  const LOOKED: State := OPEN.(creates := map[0 := CreateCall(REQUEST, LookedUp)])
  const CREATED: State :=
    Snapshot(Booked(Pending), {}, map[11 := RESERVE], OPEN.e, map[], Trail(11, Undecided, None, None, false))
  const HELD: EventDb := EventDb(map[5 := Event(10, 8)], {21}, map[31 := SUCCESS])
  const RESERVED: State :=
    Snapshot(Booked(Pending), {}, map[11 := RESERVE], HELD, map[], Trail(11, Took(31), None, None, false))
  const SETTLED: State :=
    Snapshot(Booked(Bookings.Confirmed), {41}, map[11 := RESERVE, 12 := CONFIRMED], HELD, map[],
             Trail(11, Took(31), Some(12), None, false))
  const READ: State := SETTLED.(cancels := map[0 := CancelCall(1, Booked(Bookings.Confirmed)[1])])
  const CANCELLED: State :=
    Snapshot(Booked(Bookings.Cancelled), {41}, map[11 := RESERVE, 12 := CONFIRMED, 13 := CANCEL], HELD, map[],
             Trail(11, Took(31), Some(12), Some(13), false))

  // One step of the run.
  ghost predicate Leads(s: State, step: Step, s': State) {
    Enabled(s, step) && Apply(s, step) == s'
  }

  lemma CreateLeads()
    ensures Leads(START, AddEvent(5, 10), OPEN)
    ensures Leads(OPEN, Look(0, REQUEST), LOOKED)
    ensures Leads(LOOKED, Step.Create(0, 1, Draw(11, 21, 0)), CREATED)
  {
  }

  lemma ReserveLeads()
    ensures Leads(CREATED, OnReserve(11, RESERVE, Draw(31, 41, 0), Draw(32, 42, 0), true), RESERVED)
  {
  }

  lemma ReplyLeads()
    ensures Leads(RESERVED, OnSeatsReserved(31, SUCCESS, Draw(12, 22, 0)), SETTLED)
  {
  }

  lemma CancelLeads()
    ensures Leads(SETTLED, ReadForCancel(0, 1), READ)
    ensures Leads(READ, Step.Cancel(0, Draw(13, 23, 0)), CANCELLED)
  {
  }

  lemma ReleaseLeads()
    ensures Enabled(CANCELLED, OnCancelled(13, CANCEL))
    ensures var s := Apply(CANCELLED, OnCancelled(13, CANCEL));
            && s.b.bookings == Booked(Bookings.Cancelled) && GaveBack(s, 1) && s.e.events == map[5 := Event(10, 10)]
  {
    assert 13 in RowsAbout(CANCELLED.b.outbox, BookingCancelled, 1);
  }

  lemma Reaches(s: State, step: Step, s': State)
    requires Reachable(s) && Leads(s, step, s')
    ensures Reachable(s')
  {
    ReachStep(s, step);
  }

  lemma CancelledIsReachable()
    ensures Reachable(CANCELLED)
  {
    assert Run(START, []) && After(START, []) == START;
    CreateLeads();
    Reaches(START, AddEvent(5, 10), OPEN);
    Reaches(OPEN, Look(0, REQUEST), LOOKED);
    Reaches(LOOKED, Step.Create(0, 1, Draw(11, 21, 0)), CREATED);
    ReserveLeads();
    Reaches(CREATED, OnReserve(11, RESERVE, Draw(31, 41, 0), Draw(32, 42, 0), true), RESERVED);
    ReplyLeads();
    Reaches(RESERVED, OnSeatsReserved(31, SUCCESS, Draw(12, 22, 0)), SETTLED);
    CancelLeads();
    Reaches(SETTLED, ReadForCancel(0, 1), READ);
    Reaches(READ, Step.Cancel(0, Draw(13, 23, 0)), CANCELLED);
  }

  // A booking is made, confirmed, cancelled and released, and the event is whole again.
  lemma SeatsGoThereAndBack()
    ensures exists s :: Reachable(s) && 1 in s.b.bookings && s.b.bookings[1].status == Bookings.Cancelled
                        && GaveBack(s, 1) && s.e.events == map[5 := Event(10, 10)]
  {
    CancelledIsReachable();
    ReleaseLeads();
    ReachStep(CANCELLED, OnCancelled(13, CANCEL));
  }

  /******* The empty key *******/

  const EMPTY_KEY: CreateRequest := CreateRequest(3, 5, 2, Some(""), "v1")
  const KEYLESS: map<Id, Booking> := map[1 := Booking(3, 5, 2, Pending, Some(""))]
  const FIRST: map<Id, CreateCall> := map[0 := CreateCall(EMPTY_KEY, Finished(Returned(BookingDto(1, KEYLESS[1]))))]
  const ASKED: State := START.(creates := map[0 := CreateCall(EMPTY_KEY, LookedUp)])
  const STORED: State :=
    START.(b := BookingDb(KEYLESS, map[], {}, map[11 := ReserveMessage(1, EMPTY_KEY, 21, 0)]), creates := FIRST,
           trails := map[1 := Trail(11, Undecided, None, None, false)])
  const ASKED_AGAIN: State := STORED.(creates := FIRST[1 := CreateCall(EMPTY_KEY, LookedUp)])

  lemma EmptyKeyIsStored()
    ensures Leads(START, Look(0, EMPTY_KEY), ASKED)
    ensures Leads(ASKED, Step.Create(0, 1, Draw(11, 21, 0)), STORED)
  {
  }

  lemma EmptyKeyIsNotFound()
    ensures Leads(STORED, Look(1, EMPTY_KEY), ASKED_AGAIN)
    ensures Enabled(ASKED_AGAIN, Step.Create(1, 2, Draw(12, 22, 0)))
  {
  }

  // The same request with an empty key once more: nothing is found at the lookup, and the transaction fails.
  lemma SecondEmptyKeyFails()
    ensures exists s, draw ::
              && Reachable(s) && 1 in s.b.bookings && s.b.bookings[1].key == Some("") && InCall(s, 1, LookedUp)
              && s.creates[1].request.key == Some("") && Enabled(s, Step.Create(1, 2, draw))
              && InCall(Apply(s, Step.Create(1, 2, draw)), 1, Errored) && Apply(s, Step.Create(1, 2, draw)).b == s.b
  {
    assert Run(START, []) && After(START, []) == START;
    EmptyKeyIsStored();
    Reaches(START, Look(0, EMPTY_KEY), ASKED);
    Reaches(ASKED, Step.Create(0, 1, Draw(11, 21, 0)), STORED);
    EmptyKeyIsNotFound();
    Reaches(STORED, Look(1, EMPTY_KEY), ASKED_AGAIN);
    EmptyKeyWorksOnce(ASKED_AGAIN, 1, 1, 2, Draw(12, 22, 0));
  }
}
