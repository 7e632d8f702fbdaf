/**
 The promises of the saga, for every reachable state and every run. They are stated on the tables alone: what an
 operator could check with queries on the three databases.
 */
module SagaTheorems {
  import opened Common
  import opened Messages
  import opened Sums
  import opened Bookings
  import opened Inventory
  import opened Notifications
  import opened Saga
  import opened SagaInvariant

  /******* What reachable states satisfy *******/

  lemma {:induction false} RunSnoc(s: State, steps: seq<Step>, step: Step)
    requires Run(s, steps) && Enabled(After(s, steps), step)
    ensures Run(s, steps + [step]) && After(s, steps + [step]) == Apply(After(s, steps), step)
    decreases steps
  {
    if steps == [] {
      assert [step][1..] == [];
    } else {
      assert (steps + [step])[1..] == steps[1..] + [step];
      RunSnoc(Apply(s, steps[0]), steps[1..], step);
    }
  }

  lemma ReachStep(s: State, step: Step)
    requires Reachable(s) && Enabled(s, step)
    ensures Reachable(Apply(s, step))
  {
    var steps :| Run(START, steps) && After(START, steps) == s;
    RunSnoc(START, steps, step);
  }

  lemma ReachableCore(s: State)
    requires Reachable(s)
    ensures BookingsOk(s) && RowsOk(s)
  {
    ReachableInv(s);
  }

  lemma ReachableLedger(s: State, e: Id)
    requires Reachable(s)
    ensures Balanced(s, e)
  {
    ReachableInv(s);
    assert Balanced(s, e);
  }

  lemma ReachableRecords(s: State)
    requires Reachable(s)
    ensures IdempotencyOk(s)
  {
    ReachableInv(s);
  }

  lemma ReachableNotes(s: State)
    requires Reachable(s)
    ensures NotesOk(s)
  {
    ReachableInv(s);
  }

  /******* Reading the tables *******/

  function RowsAbout(outbox: map<Id, Message>, topic: Topic, b: Id): set<Id> {
    set r | r in outbox && outbox[r].topic == topic && outbox[r].envelope.payload.bookingId == b
  }

  // The reserve message of b was processed with success.
  predicate TookSeats(s: State, b: Id) {
    && (exists r :: r in RowsAbout(s.b.outbox, ReserveSeats, b) && s.b.outbox[r].Key() in s.e.inbox)
    && RowsAbout(s.e.outbox, SeatsReserved, b) != {}
  }

  // The cancellation of b was processed.
  predicate GaveBack(s: State, b: Id) {
    exists r :: r in RowsAbout(s.b.outbox, BookingCancelled, b) && s.b.outbox[r].Key() in s.e.inbox
  }

  ghost function OutstandingOf(s: State, e: Id): Id -> int {
    (b: Id) => if b in s.b.bookings && s.b.bookings[b].eventId == e && TookSeats(s, b) && !GaveBack(s, b)
               then s.b.bookings[b].quantity else 0
  }

  ghost function Outstanding(s: State, e: Id): int {
    Sum(s.b.bookings.Keys, OutstandingOf(s, e))
  }

  ghost function ConfirmedOf(s: State, e: Id): Id -> int {
    (b: Id) => if b in s.b.bookings && s.b.bookings[b].eventId == e && s.b.bookings[b].status == Confirmed
               then s.b.bookings[b].quantity else 0
  }

  ghost function ConfirmedQuantity(s: State, e: Id): int {
    Sum(s.b.bookings.Keys, ConfirmedOf(s, e))
  }

  /******* Rows and history *******/

  // Every row about b is the one its trail names for the topic.
  lemma RowFollowsTrail(s: State, b: Id, r: Id)
    requires RowsOk(s) && b in s.trails && r in s.b.outbox && About(s.b.outbox, r) == b
    ensures match s.b.outbox[r].topic
            case ReserveSeats => r == s.trails[b].reserveRow
            case BookingConfirmed => s.trails[b].outcomeRow == Some(r) && s.trails[b].decision.Took?
            case BookingFailed => s.trails[b].outcomeRow == Some(r) && s.trails[b].decision.Refused?
            case BookingCancelled => s.trails[b].cancelRow == Some(r)
            case _ => false
  {
  }

  lemma ReserveRows(s: State, b: Id)
    requires BookingsOk(s) && RowsOk(s) && b in s.b.bookings
    ensures b in s.trails && RowsAbout(s.b.outbox, ReserveSeats, b) == {s.trails[b].reserveRow}
  {
  }

  lemma CancelRow(s: State, b: Id)
    requires b in s.b.bookings && b in s.trails && BookingOk(s, b) && s.trails[b].cancelRow.Some?
    ensures var r := s.trails[b].cancelRow.value;
            r in s.b.outbox && About(s.b.outbox, r) == b && s.b.outbox[r].topic == BookingCancelled
  {
    assert StatusOk(s, b, s.b.bookings[b], s.trails[b]);
  }

  lemma CancelRows(s: State, b: Id)
    requires BookingsOk(s) && RowsOk(s) && b in s.b.bookings
    ensures b in s.trails && RowsAbout(s.b.outbox, BookingCancelled, b) == Only(s.trails[b].cancelRow)
  {
    if s.trails[b].cancelRow.Some? { CancelRow(s, b); }
    forall r | r in RowsAbout(s.b.outbox, BookingCancelled, b) ensures s.trails[b].cancelRow == Some(r) {
      RowFollowsTrail(s, b, r);
    }
    OutcomeRowsFrom(s.b.outbox, b, BookingCancelled, s.trails[b].cancelRow);
  }

  lemma OutcomeRow(s: State, b: Id)
    requires b in s.b.bookings && b in s.trails && BookingOk(s, b) && s.trails[b].outcomeRow.Some?
    ensures var r := s.trails[b].outcomeRow.value;
            && r in s.b.outbox && About(s.b.outbox, r) == b && !s.trails[b].decision.Undecided?
            && s.b.outbox[r].topic == if s.trails[b].decision.Took? then BookingConfirmed else BookingFailed
  {
  }

  function Only(r: Option<Id>): set<Id> {
    if r.Some? then {r.value} else {}
  }

  lemma SizeOfOnly(r: Option<Id>)
    ensures |Only(r)| == if r.Some? then 1 else 0
  {
  }

  // The row of this topic that the history of a booking names.
  function OutcomeOf(t: Trail, topic: Topic): Option<Id> {
    if topic == (if t.decision.Took? then BookingConfirmed else BookingFailed) then t.outcomeRow else None
  }

  lemma OutcomeRowsFrom(outbox: map<Id, Message>, b: Id, topic: Topic, row: Option<Id>)
    requires row.Some? ==> row.value in outbox && About(outbox, row.value) == b && outbox[row.value].topic == topic
    requires forall r :: r in RowsAbout(outbox, topic, b) ==> row == Some(r)
    ensures RowsAbout(outbox, topic, b) == Only(row)
  {
  }

  lemma OutcomeRows(s: State, b: Id, topic: Topic)
    requires BookingsOk(s) && RowsOk(s) && b in s.b.bookings && topic in {BookingConfirmed, BookingFailed}
    ensures b in s.trails && RowsAbout(s.b.outbox, topic, b) == Only(OutcomeOf(s.trails[b], topic))
  {
    var t := s.trails[b];
    if t.outcomeRow.Some? { OutcomeRow(s, b); }
    forall r | r in RowsAbout(s.b.outbox, topic, b) ensures OutcomeOf(t, topic) == Some(r) { RowFollowsTrail(s, b, r); }
    OutcomeRowsFrom(s.b.outbox, b, topic, OutcomeOf(t, topic));
  }

  lemma EventRowFollowsTrail(s: State, b: Id, r: Id)
    requires RowsOk(s) && b in s.trails && r in s.e.outbox && About(s.e.outbox, r) == b
    ensures match s.e.outbox[r].topic
            case SeatsReserved => s.trails[b].decision == Took(r)
            case SeatReservationFailed => s.trails[b].decision == Refused(r)
            case _ => false
  {
    assert EventRowOk(s, r);
  }

  function ReplyOf(d: Decision, topic: Topic): Option<Id> {
    match d
    case Took(r) => if topic == SeatsReserved then Some(r) else None
    case Refused(r) => if topic == SeatReservationFailed then Some(r) else None
    case Undecided => None
  }

  lemma ReplyRowsOf(s: State, b: Id, topic: Topic)
    requires BookingsOk(s) && RowsOk(s) && b in s.b.bookings && topic in {SeatsReserved, SeatReservationFailed}
    ensures b in s.trails && RowsAbout(s.e.outbox, topic, b) == Only(ReplyOf(s.trails[b].decision, topic))
  {
    var d := s.trails[b].decision;
    assert BookingOk(s, b) && DecisionOk(s, b, s.b.bookings[b], s.trails[b]);
    forall r | r in RowsAbout(s.e.outbox, topic, b) ensures ReplyOf(d, topic) == Some(r) { EventRowFollowsTrail(s, b, r); }
    OutcomeRowsFrom(s.e.outbox, b, topic, ReplyOf(d, topic));
  }

  lemma ReplyRows(s: State, b: Id)
    requires BookingsOk(s) && RowsOk(s) && b in s.b.bookings
    ensures b in s.trails
    ensures var t := s.trails[b];
            && RowsAbout(s.e.outbox, SeatsReserved, b) == (if t.decision.Took? then {t.decision.reply} else {})
            && RowsAbout(s.e.outbox, SeatReservationFailed, b) == (if t.decision.Refused? then {t.decision.reply} else {})
  {
    ReplyRowsOf(s, b, SeatsReserved);
    ReplyRowsOf(s, b, SeatReservationFailed);
  }

  predicate HasReached(s: State, b: Id, status: Bookings.Status)
    requires b in s.b.bookings
  {
    s.b.bookings[b].status == status || (status == Confirmed && s.b.bookings[b].status == Bookings.Cancelled)
  }

  lemma StatusOfTrail(s: State, b: Id)
    requires b in s.b.bookings && b in s.trails && BookingOk(s, b)
    ensures var k, t := s.b.bookings[b], s.trails[b];
            && (HasReached(s, b, Confirmed) <==> t.outcomeRow.Some? && t.decision.Took?)
            && (HasReached(s, b, Failed) <==> t.outcomeRow.Some? && t.decision.Refused?)
            && (HasReached(s, b, Bookings.Cancelled) <==> t.cancelRow.Some?)
            && k.status != Expired
  {
  }

  lemma ReachedByTrail(s: State, b: Id)
    requires BookingsOk(s) && b in s.b.bookings
    ensures b in s.trails
    ensures var k, t := s.b.bookings[b], s.trails[b];
            && (HasReached(s, b, Confirmed) <==> t.outcomeRow.Some? && t.decision.Took?)
            && (HasReached(s, b, Failed) <==> t.outcomeRow.Some? && t.decision.Refused?)
            && (HasReached(s, b, Bookings.Cancelled) <==> t.cancelRow.Some?)
            && k.status != Expired
  {
    StatusOfTrail(s, b);
  }

  lemma OutcomeCount(s: State, b: Id, topic: Topic)
    requires Reachable(s) && b in s.b.bookings && topic in {BookingConfirmed, BookingFailed}
    ensures |RowsAbout(s.b.outbox, topic, b)|
         == if HasReached(s, b, if topic == BookingConfirmed then Confirmed else Failed) then 1 else 0
  {
    ReachableCore(s);
    ReachedByTrail(s, b);
    OutcomeRows(s, b, topic);
    SizeOfOnly(OutcomeOf(s.trails[b], topic));
  }

  lemma CancelCount(s: State, b: Id)
    requires Reachable(s) && b in s.b.bookings
    ensures |RowsAbout(s.b.outbox, BookingCancelled, b)| == if HasReached(s, b, Bookings.Cancelled) then 1 else 0
    ensures s.b.bookings[b].status != Expired
  {
    ReachableCore(s);
    ReachedByTrail(s, b);
    CancelRows(s, b);
    SizeOfOnly(s.trails[b].cancelRow);
  }

  lemma ReserveCount(s: State, b: Id)
    requires Reachable(s) && b in s.b.bookings
    ensures |RowsAbout(s.b.outbox, ReserveSeats, b)| == 1
  {
    ReachableCore(s);
    ReserveRows(s, b);
  }

  // Each booking has exactly one RESERVE_SEATS row, and one row per status exactly when it has reached that status.
  lemma RowsTellStatus(s: State, b: Id)
    requires Reachable(s) && b in s.b.bookings
    ensures |RowsAbout(s.b.outbox, ReserveSeats, b)| == 1
    ensures |RowsAbout(s.b.outbox, BookingConfirmed, b)| == if HasReached(s, b, Confirmed) then 1 else 0
    ensures |RowsAbout(s.b.outbox, BookingFailed, b)| == if HasReached(s, b, Failed) then 1 else 0
    ensures |RowsAbout(s.b.outbox, BookingCancelled, b)| == if HasReached(s, b, Bookings.Cancelled) then 1 else 0
    ensures s.b.bookings[b].status != Expired
  {
    ReserveCount(s, b);
    OutcomeCount(s, b, BookingConfirmed);
    OutcomeCount(s, b, BookingFailed);
    CancelCount(s, b);
  }

  lemma BookingRowDescribes(s: State, r: Id)
    requires BookingsOk(s) && RowsOk(s) && r in s.b.outbox
    ensures Describes(s, s.b.outbox[r])
  {
    assert BookingRowOk(s, r);
    assert BookingOk(s, About(s.b.outbox, r));
  }

  lemma EventRowDescribes(s: State, r: Id)
    requires BookingsOk(s) && RowsOk(s) && r in s.e.outbox
    ensures Describes(s, s.e.outbox[r])
  {
    assert EventRowOk(s, r);
    assert BookingOk(s, About(s.e.outbox, r));
  }

  // Every row of either outbox names an existing booking and carries its event and, where there is one, its quantity.
  lemma RowsCarryTheirBooking(s: State, r: Id)
    requires Reachable(s)
    ensures r in s.b.outbox ==> Describes(s, s.b.outbox[r])
    ensures r in s.e.outbox ==> Describes(s, s.e.outbox[r])
  {
    ReachableCore(s);
    if r in s.b.outbox { BookingRowDescribes(s, r); }
    if r in s.e.outbox { EventRowDescribes(s, r); }
  }

  ghost predicate Describes(s: State, m: Message) {
    var p := m.envelope.payload;
    && m.WellTyped() && p.bookingId in s.b.bookings && m.envelope.correlationId == p.bookingId
    && p.eventId == s.b.bookings[p.bookingId].eventId
    && (!p.FailurePayload? ==> p.quantity == s.b.bookings[p.bookingId].quantity)
    && (p.ReservePayload? ==> p.userId == s.b.bookings[p.bookingId].userId)
  }

  /******* The global seat ledger *******/

  lemma TakenFollowsTables(s: State, b: Id)
    requires BookingsOk(s) && RowsOk(s) && b in s.b.bookings
    ensures b in s.trails && (TookSeats(s, b) <==> s.trails[b].decision.Took?)
  {
    ReserveRows(s, b);
    ReplyRows(s, b);
    var row := s.trails[b].reserveRow;
    assert row in RowsAbout(s.b.outbox, ReserveSeats, b);
    assert BookingOk(s, b) && RequestOk(s, b, s.b.bookings[b], s.trails[b]);
  }

  lemma GaveBackIs(s: State, b: Id, row: Option<Id>)
    requires RowsAbout(s.b.outbox, BookingCancelled, b) == Only(row)
    ensures GaveBack(s, b) <==> row.Some? && Consumed(s.e.inbox, s.b.outbox, row.value)
  {
    if row.Some? { assert row.value in RowsAbout(s.b.outbox, BookingCancelled, b); }
  }

  lemma ReleasedFollowsTables(s: State, b: Id)
    requires BookingsOk(s) && RowsOk(s) && b in s.b.bookings
    ensures b in s.trails && (GaveBack(s, b) <==> s.trails[b].released)
  {
    CancelRows(s, b);
    assert BookingOk(s, b) && ReleaseOk(s, s.trails[b]);
    GaveBackIs(s, b, s.trails[b].cancelRow);
  }

  // The trail flags read off the tables.
  lemma FlagsFollowTables(s: State, b: Id)
    requires BookingsOk(s) && RowsOk(s) && b in s.b.bookings
    ensures b in s.trails
    ensures TookSeats(s, b) <==> s.trails[b].decision.Took?
    ensures GaveBack(s, b) <==> s.trails[b].released
  {
    TakenFollowsTables(s, b);
    ReleasedFollowsTables(s, b);
  }

  lemma HeldIsOutstanding(s: State, e: Id)
    requires BookingsOk(s) && RowsOk(s)
    ensures Held(s, e) == Outstanding(s, e)
  {
    forall b | b in s.b.bookings ensures Holding(s, e)(b) == OutstandingOf(s, e)(b) {
      FlagsFollowTables(s, b);
    }
    SumSame(s.b.bookings.Keys, Holding(s, e), OutstandingOf(s, e));
  }

  // In every reachable state the seats missing from an event are exactly those its bookings took and did not give back.
  lemma SeatLedger(s: State, e: Id)
    requires Reachable(s)
    ensures e in s.e.events ==>
              && s.e.events[e].total - s.e.events[e].available == Outstanding(s, e)
              && 0 <= s.e.events[e].available <= s.e.events[e].total
    ensures e !in s.e.events ==> Outstanding(s, e) == 0
  {
    ReachableCore(s);
    ReachableLedger(s, e);
    HeldIsOutstanding(s, e);
  }

  // The first delivery of any cancellation gives its seats back, whatever capacity changes and deletes ran before.
  lemma ReleaseIsNeverRefused(s: State, row: Id, m: Message)
    requires Reachable(s) && Delivered(s.b.outbox, row, m, BookingCancelled)
    ensures if m.Key() in s.e.inbox then ReleaseTx(s, m).result == ReleaseDuplicate
            else ReleaseTx(s, m).result.SeatsReleased?
  {
    ReachableCore(s);
    if m.Key() !in s.e.inbox {
      DeliveredCancel(s, row, m);
      ReachableLedger(s, m.envelope.payload.eventId);
      ReleaseIsAccepted(s, row, m);
    }
  }

  lemma ConfirmedByStatus(s: State, e: Id, b: Id)
    requires b in s.b.bookings && b in s.trails && BookingOk(s, b)
    ensures 0 <= ConfirmedOf(s, e)(b) <= Holding(s, e)(b)
    ensures s.b.bookings[b].eventId == e && s.b.bookings[b].status != Pending
              && (s.b.bookings[b].status == Bookings.Cancelled ==> s.trails[b].released) ==>
              ConfirmedOf(s, e)(b) == Holding(s, e)(b)
  {
  }

  lemma ConfirmedIsHeld(s: State, e: Id, b: Id)
    requires BookingsOk(s) && RowsOk(s) && b in s.b.bookings
    ensures 0 <= ConfirmedOf(s, e)(b) <= Holding(s, e)(b)
    ensures s.b.bookings[b].eventId == e && s.b.bookings[b].status != Pending
              && (s.b.bookings[b].status == Bookings.Cancelled ==> GaveBack(s, b)) ==>
              ConfirmedOf(s, e)(b) == Holding(s, e)(b)
  {
    FlagsFollowTables(s, b);
    ConfirmedByStatus(s, e, b);
  }

  // Confirmed bookings never exceed the seats taken, and those never exceed the capacity.
  lemma NoOverselling(s: State, e: Id)
    requires Reachable(s) && e in s.e.events
    ensures 0 <= ConfirmedQuantity(s, e) <= s.e.events[e].total - s.e.events[e].available <= s.e.events[e].total
  {
    ReachableCore(s);
    ReachableLedger(s, e);
    forall b | b in s.b.bookings ensures 0 <= ConfirmedOf(s, e)(b) <= Holding(s, e)(b) {
      ConfirmedIsHeld(s, e, b);
    }
    SumBetween(s.b.bookings.Keys, ConfirmedOf(s, e), Holding(s, e));
    SumConstant(s.b.bookings.Keys, (b: Id) => 0, 0);
    SumBetween(s.b.bookings.Keys, (b: Id) => 0, ConfirmedOf(s, e));
  }

  // Nothing of event e is in flight: no booking waits for a reply, no cancellation waits for its release.
  predicate Quiet(s: State, e: Id) {
    forall b :: b in s.b.bookings && s.b.bookings[b].eventId == e ==>
      && s.b.bookings[b].status != Pending
      && (s.b.bookings[b].status == Bookings.Cancelled ==> GaveBack(s, b))
  }

  lemma QuietIsHeld(s: State, e: Id, b: Id)
    requires BookingsOk(s) && RowsOk(s) && Quiet(s, e) && b in s.b.bookings
    ensures ConfirmedOf(s, e)(b) == Holding(s, e)(b)
  {
    ConfirmedIsHeld(s, e, b);
  }

  // Then confirmed plus available seats make up the capacity.
  lemma Conservation(s: State, e: Id)
    requires Reachable(s) && e in s.e.events && Quiet(s, e)
    ensures ConfirmedQuantity(s, e) + s.e.events[e].available == s.e.events[e].total
  {
    ReachableCore(s);
    ReachableLedger(s, e);
    forall b | b in s.b.bookings ensures ConfirmedOf(s, e)(b) == Holding(s, e)(b) { QuietIsHeld(s, e, b); }
    SumSame(s.b.bookings.Keys, ConfirmedOf(s, e), Holding(s, e));
  }

  /******* One decision, one reply *******/

  // A reserve message has one reply row once it is processed, and none before; success and failure exclude each other.
  lemma OneReply(s: State, row: Id)
    requires Reachable(s) && row in s.b.outbox && s.b.outbox[row].topic == ReserveSeats
    ensures var b := s.b.outbox[row].envelope.payload.bookingId;
            var success, failure := RowsAbout(s.e.outbox, SeatsReserved, b), RowsAbout(s.e.outbox, SeatReservationFailed, b);
            && |success| + |failure| == (if s.b.outbox[row].Key() in s.e.inbox then 1 else 0)
            && (success == {} || failure == {})
            && (TookSeats(s, b) <==> success != {})
  {
    ReachableCore(s);
    assert BookingRowOk(s, row);
    var b := s.b.outbox[row].envelope.payload.bookingId;
    assert BookingOk(s, b);
    ReplyRows(s, b);
    ReserveRows(s, b);
    FlagsFollowTables(s, b);
    assert row in RowsAbout(s.b.outbox, ReserveSeats, b);
  }

  // The transaction that decides a reserve message takes the seats exactly when the row it writes reports success, and a
  // refusal says why: the event was seen, so its seats are too few, or it was not.
  lemma ReplyReportsTheSeats(s: State, row: Id, m: Message, success: Draw, failure: Draw, seen: bool)
    requires Reachable(s) && Enabled(s, OnReserve(row, m, success, failure, seen)) && m.Key() !in s.e.inbox
    ensures var s' := Apply(s, OnReserve(row, m, success, failure, seen));
            var p := m.envelope.payload;
            && m.envelope.messageId in s'.e.inbox
            && if p.eventId in s.e.events && p.quantity <= s.e.events[p.eventId].available then
                 && s'.e.outbox
                    == s.e.outbox[success.row := Message(SeatsReserved,
                                                         Envelope(success.messageId, m.envelope.correlationId, success.at,
                                                                  SeatsPayload(p.bookingId, p.eventId, p.quantity)))]
                 && s'.e.events == Taking(s.e, p.eventId, p.quantity)
               else
                 && s'.e.outbox
                    == s.e.outbox[failure.row := Message(SeatReservationFailed,
                                                         Envelope(failure.messageId, m.envelope.correlationId, failure.at,
                                                                  FailurePayload(p.bookingId, p.eventId,
                                                                                 if seen then InsufficientSeats
                                                                                 else EventNotFound)))]
                 && s'.e.events == s.e.events
  {
    ReachableCore(s);
    DeliveredReserve(s, row, m);
    DecisionMatchesSeats(s, row, m, success, failure, seen);
  }

  lemma DecisionMatchesSeats(s: State, row: Id, m: Message, success: Draw, failure: Draw, seen: bool)
    requires m.WellTyped() && m.topic == ReserveSeats && ReserveSpeaks(s, row, m) && m.Key() !in s.e.inbox
    requires FreshForEvents(s, success) && FreshForEvents(s, failure)
    ensures var s' := ApplyReserve(s, m, success, failure, seen);
            var p := m.envelope.payload;
            && m.envelope.messageId in s'.e.inbox
            && if p.eventId in s.e.events && p.quantity <= s.e.events[p.eventId].available then
                 && s'.e.outbox
                    == s.e.outbox[success.row := Message(SeatsReserved,
                                                         Envelope(success.messageId, m.envelope.correlationId, success.at,
                                                                  SeatsPayload(p.bookingId, p.eventId, p.quantity)))]
                 && s'.e.events == Taking(s.e, p.eventId, p.quantity)
               else
                 && s'.e.outbox
                    == s.e.outbox[failure.row := Message(SeatReservationFailed,
                                                         Envelope(failure.messageId, m.envelope.correlationId, failure.at,
                                                                  FailurePayload(p.bookingId, p.eventId,
                                                                                 if seen then InsufficientSeats
                                                                                 else EventNotFound)))]
                 && s'.e.events == s.e.events
  {
  }

  // A reply is new to booking-service exactly while its booking is PENDING, and its first delivery settles the status.
  lemma ReplyDecidesBooking(s: State, row: Id, m: Message, draw: Draw, topic: Topic)
    requires Reachable(s) && topic in {SeatsReserved, SeatReservationFailed}
    requires Delivered(s.e.outbox, row, m, topic) && FreshForBookings(s, draw)
    ensures var b := m.envelope.payload.bookingId;
            && b in s.b.bookings
            && (m.Key() !in s.b.inbox <==> s.b.bookings[b].status == Pending)
            && var s' := ApplyReply(s, m, draw);
            b in s'.b.bookings &&
            s'.b.bookings[b].status == if s.b.bookings[b].status != Pending then s.b.bookings[b].status
                                       else if topic == SeatsReserved then Confirmed else Failed
  {
    ReachableCore(s);
    DeliveredReply(s, row, m, topic);
    var b := m.envelope.payload.bookingId;
    assert StatusOk(s, b, s.b.bookings[b], s.trails[b]);
    if m.Key() !in s.b.inbox { ReplyIsAccepted(s, row, m, draw); }
  }

  lemma PendingTrail(s: State, b: Id)
    requires b in s.b.bookings && b in s.trails && BookingOk(s, b) && s.b.bookings[b].status == Pending
    ensures var t := s.trails[b];
            && t.reserveRow in s.b.outbox
            && (s.b.outbox[t.reserveRow].Key() in s.e.inbox <==> !t.decision.Undecided?)
            && (!t.decision.Undecided? ==>
                  t.decision.reply in s.e.outbox && s.e.outbox[t.decision.reply].Key() !in s.b.inbox)
  {
    assert StatusOk(s, b, s.b.bookings[b], s.trails[b]);
  }

  // The rows that can answer for b.
  function Replies(s: State, b: Id): set<Id> {
    RowsAbout(s.e.outbox, SeatsReserved, b) + RowsAbout(s.e.outbox, SeatReservationFailed, b)
  }

  lemma ReplySet(s: State, b: Id)
    requires BookingsOk(s) && RowsOk(s) && b in s.b.bookings
    ensures b in s.trails
    ensures Replies(s, b) == if s.trails[b].decision.Undecided? then {} else {s.trails[b].decision.reply}
  {
    ReplyRows(s, b);
  }

  // Row r is the unprocessed reserve message of b, or the unprocessed reply to it.
  ghost predicate WaitsFor(s: State, b: Id, reply: bool, r: Id) {
    if reply then r in Replies(s, b) && s.e.outbox[r].Key() !in s.b.inbox
    else r in RowsAbout(s.b.outbox, ReserveSeats, b) && s.b.outbox[r].Key() !in s.e.inbox
  }

  // A PENDING booking waits for exactly one message: its reserve message, or else its one reply.
  lemma PendingHasAMessage(s: State, b: Id) returns (reply: bool, r: Id)
    requires Reachable(s) && b in s.b.bookings && s.b.bookings[b].status == Pending
    ensures WaitsFor(s, b, reply, r)
    ensures forall other, x :: WaitsFor(s, b, other, x) ==> other == reply && x == r
  {
    ReachableCore(s);
    ReserveRows(s, b);
    ReplySet(s, b);
    PendingTrail(s, b);
    reply, r := OneOfTwo(s, b);
  }

  lemma OneOfTwo(s: State, b: Id) returns (reply: bool, r: Id)
    requires b in s.trails && RowsAbout(s.b.outbox, ReserveSeats, b) == {s.trails[b].reserveRow}
    requires Replies(s, b) == if s.trails[b].decision.Undecided? then {} else {s.trails[b].decision.reply}
    requires s.trails[b].reserveRow in s.b.outbox
    requires s.b.outbox[s.trails[b].reserveRow].Key() in s.e.inbox <==> !s.trails[b].decision.Undecided?
    requires !s.trails[b].decision.Undecided? ==>
               && s.trails[b].decision.reply in s.e.outbox
               && s.e.outbox[s.trails[b].decision.reply].Key() !in s.b.inbox
    ensures WaitsFor(s, b, reply, r)
    ensures forall other, x :: WaitsFor(s, b, other, x) ==> other == reply && x == r
  {
    reply := !s.trails[b].decision.Undecided?;
    r := if reply then s.trails[b].decision.reply else s.trails[b].reserveRow;
  }

  /******* What consumers accept *******/

  // No handler sees a message of another topic, with another payload, or without a positive number of seats.
  lemma MalformedIsRefused(s: State, step: Step)
    requires Enabled(s, step)
    ensures step.OnReserve? ==>
              step.m.topic == ReserveSeats && step.m.envelope.payload.ReservePayload? && 0 < step.m.envelope.payload.quantity
    ensures step.OnCancelled? ==>
              step.m.topic == BookingCancelled && step.m.envelope.payload.SeatsPayload? && 0 < step.m.envelope.payload.quantity
    ensures step.OnSeatsReserved? ==>
              step.m.topic == SeatsReserved && step.m.envelope.payload.SeatsPayload? && 0 < step.m.envelope.payload.quantity
    ensures step.OnSeatsRefused? ==> step.m.topic == SeatReservationFailed && step.m.envelope.payload.FailurePayload?
    ensures step.Notify? ==>
              && step.m.topic in {BookingConfirmed, BookingFailed, BookingCancelled}
              && (step.m.topic == BookingFailed <==> step.m.envelope.payload.FailurePayload?)
              && (step.m.envelope.payload.SeatsPayload? ==> 0 < step.m.envelope.payload.quantity)
  {
  }

  /******* What the rows of booking-service say *******/

  // The message that a step of booking-service puts into its new row, if it writes one.
  function Announces(s: State, step: Step): Option<Message>
    requires step.Create? ==> step.call in s.creates
    requires step.Cancel? ==> step.call in s.cancels && s.cancels[step.call].booking in s.b.bookings
  {
    match step
    case Create(c, id, d) =>
      var r := s.creates[c].request;
      Some(Message(ReserveSeats, Envelope(d.messageId, id, d.at, ReservePayload(id, r.eventId, r.userId, r.quantity))))
    case Cancel(c, d) =>
      var b := s.cancels[c].booking;
      var k := s.b.bookings[b];
      Some(Message(BookingCancelled, Envelope(d.messageId, b, d.at, SeatsPayload(b, k.eventId, k.quantity))))
    case OnSeatsReserved(_, m, d) =>
      Some(Message(BookingConfirmed, Envelope(d.messageId, m.envelope.correlationId, d.at, m.envelope.payload)))
    case OnSeatsRefused(_, m, d) =>
      Some(Message(BookingFailed, Envelope(d.messageId, m.envelope.correlationId, d.at, m.envelope.payload)))
    case _ => None
  }

  lemma CancelCallSees(s: State, c: Id)
    requires Reachable(s) && c in s.cancels
    ensures s.cancels[c].booking in s.b.bookings
    ensures SameTerms(s.cancels[c].seen, s.b.bookings[s.cancels[c].booking])
  {
    ReachableInv(s);
  }

  // A step of booking-service adds one row or none, and the row says what the step has done.
  lemma RowsSayWhatHappened(s: State, step: Step)
    requires Reachable(s) && Enabled(s, step)
    ensures step.Cancel? ==> s.cancels[step.call].booking in s.b.bookings
    ensures var s' := Apply(s, step);
            s'.b.outbox == s.b.outbox
            || (Announces(s, step).Some? && s'.b.outbox == s.b.outbox[step.draw.row := Announces(s, step).value])
    ensures Apply(s, step).b.bookings != s.b.bookings ==> Apply(s, step).b.outbox != s.b.outbox
  {
    if step.Cancel? { CancelCallSees(s, step.call); }
  }

  /******* Booking history over whole runs *******/

  predicate Edge(a: Bookings.Status, b: Bookings.Status) {
    (a == Pending && b in {Confirmed, Failed}) || (a == Confirmed && b == Bookings.Cancelled)
  }

  predicate Follows(a: Bookings.Status, b: Bookings.Status) {
    a == b || Edge(a, b) || (a == Pending && b == Bookings.Cancelled)
  }

  ghost predicate MovesBooking(bookings: map<Id, Booking>, bookings': map<Id, Booking>, b: Id)
    requires b in bookings
  {
    && b in bookings' && SameTerms(bookings[b], bookings'[b])
    && (bookings[b].status == bookings'[b].status || Edge(bookings[b].status, bookings'[b].status))
  }

  lemma CreateMovesBooking(s: State, c: Id, id: Id, draw: Draw, b: Id)
    requires Enabled(s, Step.Create(c, id, draw)) && b in s.b.bookings
    ensures MovesBooking(s.b.bookings, ApplyCreate(s, c, id, draw).b.bookings, b)
  {
  }

  lemma CancelMovesBooking(s: State, c: Id, draw: Draw, b: Id)
    requires c in s.cancels && b in s.b.bookings
    ensures MovesBooking(s.b.bookings, ApplyCancel(s, c, draw).b.bookings, b)
  {
  }

  lemma ReplyMovesBooking(s: State, m: Message, draw: Draw, b: Id)
    requires m.WellTyped() && m.topic in {SeatsReserved, SeatReservationFailed} && b in s.b.bookings
    ensures MovesBooking(s.b.bookings, ApplyReply(s, m, draw).b.bookings, b)
  {
  }

  // What a step may do to a booking: nothing, or one edge of its life; its terms stay.
  lemma StepMovesBooking(s: State, step: Step, b: Id)
    requires Enabled(s, step) && b in s.b.bookings
    ensures MovesBooking(s.b.bookings, Apply(s, step).b.bookings, b)
  {
    match step
    case Create(c, id, draw) => CreateMovesBooking(s, c, id, draw, b);
    case Cancel(c, draw) => CancelMovesBooking(s, c, draw, b);
    case OnSeatsReserved(_, m, draw) => ReplyMovesBooking(s, m, draw, b);
    case OnSeatsRefused(_, m, draw) => ReplyMovesBooking(s, m, draw, b);
    case _ => assert Apply(s, step).b.bookings == s.b.bookings;
  }

  // Rows, records, processed messages and notifications are never changed or lost.
  ghost predicate Retained(s: State, s': State) {
    && Grows(s.b.outbox, s'.b.outbox) && Grows(s.e.outbox, s'.e.outbox)
    && s.b.inbox <= s'.b.inbox && s.e.inbox <= s'.e.inbox && s.n.inbox <= s'.n.inbox
    && (forall k :: k in s.b.records ==> k in s'.b.records && s'.b.records[k] == s.b.records[k])
    && (forall n :: n in s.n.notes ==> n in s'.n.notes && s'.n.notes[n] == s.n.notes[n])
  }

  lemma CreateRetains(s: State, c: Id, id: Id, draw: Draw)
    requires Enabled(s, Step.Create(c, id, draw))
    ensures Retained(s, ApplyCreate(s, c, id, draw))
  {
  }

  lemma CancelRetains(s: State, c: Id, draw: Draw)
    requires Enabled(s, Step.Cancel(c, draw))
    ensures Retained(s, ApplyCancel(s, c, draw))
  {
  }

  lemma ReplyRetains(s: State, m: Message, draw: Draw)
    requires m.WellTyped() && m.topic in {SeatsReserved, SeatReservationFailed} && draw.row !in s.b.outbox
    ensures Retained(s, ApplyReply(s, m, draw))
  {
  }

  lemma EventStepRetains(s: State, step: Step)
    requires Enabled(s, step) && (step.OnReserve? || step.OnCancelled?)
    ensures Retained(s, Apply(s, step))
  {
    var s' := Apply(s, step);
    assert s'.b == s.b && s'.n == s.n;
  }

  lemma StepRetains(s: State, step: Step)
    requires Enabled(s, step)
    ensures Retained(s, Apply(s, step))
  {
    match step
    case Create(c, id, draw) => CreateRetains(s, c, id, draw);
    case Cancel(c, draw) => CancelRetains(s, c, draw);
    case OnSeatsReserved(_, m, draw) => ReplyRetains(s, m, draw);
    case OnSeatsRefused(_, m, draw) => ReplyRetains(s, m, draw);
    case OnReserve(_, _, _, _, _) => EventStepRetains(s, step);
    case OnCancelled(_, _) => EventStepRetains(s, step);
    case _ =>
  }

  lemma {:induction false} HistoryOfBooking(s: State, steps: seq<Step>, b: Id)
    requires Run(s, steps) && b in s.b.bookings
    ensures b in After(s, steps).b.bookings && SameTerms(s.b.bookings[b], After(s, steps).b.bookings[b])
    ensures Follows(s.b.bookings[b].status, After(s, steps).b.bookings[b].status)
    ensures Retained(s, After(s, steps))
    decreases steps
  {
    if steps != [] {
      StepMovesBooking(s, steps[0], b);
      StepRetains(s, steps[0]);
      HistoryOfBooking(Apply(s, steps[0]), steps[1..], b);
    }
  }

  /******* Idempotent creates *******/

  ghost predicate Ended(call: CreateCall) {
    call.state.Finished? || call.state.Errored?
  }

  // Every call with a key that has ended got the stored response, or was turned away for its fingerprint.
  lemma CreatesLinearise(s: State, c: Id)
    requires Reachable(s) && c in s.creates && Ended(s.creates[c])
    requires HasKey(s.creates[c].request) && s.creates[c].request.quantity > 0
    ensures s.creates[c].request.key.value in s.b.records
    ensures var record := s.b.records[s.creates[c].request.key.value];
            s.creates[c].state == Finished(if record.fingerprint == s.creates[c].request.fingerprint
                                           then Returned(record.response) else Reused)
  {
    ReachableRecords(s);
    assert AnswerOk(s, s.creates[c]);
  }

  // However many calls use a key: one booking, one record, one RESERVE_SEATS row, and the response describes that booking.
  lemma OneBookingPerKey(s: State, key: string)
    requires Reachable(s) && key in s.b.records
    ensures var b := s.b.records[key].bookingId;
            && (forall d :: d in s.b.bookings && s.b.bookings[d].key == Some(key) <==> d == b)
            && |RowsAbout(s.b.outbox, ReserveSeats, b)| == 1
            && s.b.records[key].response.id == b
            && SameTerms(s.b.records[key].response.booking, s.b.bookings[b])
            && s.b.records[key].response.booking.status == Pending
  {
    ReachableRecords(s);
    assert RecordOk(s, key);
    RowsTellStatus(s, s.b.records[key].bookingId);
  }

  // A booking with a non-empty key always has its record: the lookup by booking after a conflict is never reached.
  lemma RecordsAreComplete(s: State, b: Id)
    requires Reachable(s) && b in s.b.bookings && s.b.bookings[b].key.Some? && s.b.bookings[b].key.value != ""
    ensures s.b.bookings[b].key.value in s.b.records && s.b.records[s.b.bookings[b].key.value].bookingId == b
  {
    ReachableRecords(s);
    assert KeyedOk(s, b);
  }

  lemma ConflictsAreAnswered(s: State, c: Id)
    requires Reachable(s) && InCall(s, c, Conflicted)
    ensures Apply(s, Resolve(c)).creates[c].state == Finished(Lookup(s.b, s.creates[c].request))
    ensures Apply(s, Resolve(c)).b == s.b
  {
    ReachableRecords(s);
    ResolveFindsRecord(s, c);
  }

  // How a create call goes on: found at the lookup, or on to the transaction; there created, in conflict with a used key, or
  // in error.
  lemma CallsGoOnExactly(s: State, c: Id, request: CreateRequest, id: Id, draw: Draw)
    ensures Enabled(s, Look(c, request)) ==>
              var s' := Apply(s, Look(c, request));
              && s' == s.(creates := s'.creates) && s'.creates - {c} == s.creates && c in s'.creates
              && s'.creates[c].request == request
              && s'.creates[c].state
                 == if request.key !in {None, Some("")} && request.key.value in s.b.records then
                      var record := s.b.records[request.key.value];
                      Finished(if record.fingerprint == request.fingerprint then Returned(record.response) else Reused)
                    else LookedUp
    ensures Enabled(s, Step.Create(c, id, draw)) ==>
              var s' := Apply(s, Step.Create(c, id, draw));
              var request := s.creates[c].request;
              && s'.creates - {c} == s.creates - {c} && c in s'.creates && s'.creates[c].request == request
              && s'.creates[c].state
                 == if id in s'.b.bookings then Finished(Returned(BookingDto(id, s'.b.bookings[id])))
                    else if 0 < request.quantity && request.key !in {None, Some("")} then Conflicted else Errored
  {
    if Enabled(s, Look(c, request)) { assert HasKey(request) <==> request.key !in {None, Some("")}; }
    if Enabled(s, Step.Create(c, id, draw)) {
      var r := s.creates[c].request;
      assert HasKey(r) <==> r.key !in {None, Some("")};
      CreateIsExact(s.b, id, r, NewRow(draw.row, ReserveMessage(id, r, draw.messageId, draw.at)));
    }
  }

  // Resolving a conflict: the record of the key, else a booking with the key, else the error; for any tables.
  lemma ConflictsEndExactly(s: State, c: Id)
    requires InCall(s, c, Conflicted)
    ensures var request, state := s.creates[c].request, Apply(s, Resolve(c)).creates[c].state;
            if request.key !in {None, Some("")} && request.key.value in s.b.records then
              var record := s.b.records[request.key.value];
              state == Finished(if record.fingerprint == request.fingerprint then Returned(record.response) else Reused)
            else if request.key.Some? && exists b :: b in s.b.bookings && s.b.bookings[b].key == request.key then
              && state.Finished? && state.answer.Returned? && var dto := state.answer.dto;
                 && dto.id in s.b.bookings && dto.booking == s.b.bookings[dto.id] && dto.booking.key == request.key
            else state == Errored
  {
    var request := s.creates[c].request;
    assert HasKey(request) <==> request.key !in {None, Some("")};
    if request.key.Some? {
      assert forall b :: FoundByKey(s.b, request.key.value, b) <==> b in s.b.bookings && s.b.bookings[b].key == request.key;
    }
  }

  // Nothing is written by a call that finds its key used, whether at the lookup or only in the transaction.
  lemma UsedKeyWritesNothing(s: State, c: Id, id: Id, draw: Draw)
    requires Reachable(s) && Enabled(s, Create(c, id, draw))
    requires HasKey(s.creates[c].request) && s.creates[c].request.key.value in s.b.records
    ensures Apply(s, Create(c, id, draw)).b == s.b && Apply(s, Create(c, id, draw)).e == s.e
    ensures s.creates[c].request.quantity > 0 ==> InCall(Apply(s, Create(c, id, draw)), c, Conflicted)
  {
  }

  // An empty key is no key for the lookup, yet the unique index of the bookings table sees it: the second booking with
  // an empty key is neither replayed nor created, it fails.
  lemma EmptyKeyWorksOnce(s: State, b: Id, c: Id, id: Id, draw: Draw)
    requires b in s.b.bookings && s.b.bookings[b].key == Some("")
    requires Enabled(s, Create(c, id, draw)) && s.creates[c].request.key == Some("")
    ensures InCall(Apply(s, Create(c, id, draw)), c, Errored) && Apply(s, Create(c, id, draw)).b == s.b
  {
  }

  /******* Notifications *******/

  function Reports(kind: Kind): Bookings.Status {
    match kind
    case ConfirmedNote => Confirmed
    case FailedNote => Failed
    case CancelledNote => Bookings.Cancelled
  }

  // The reply of event-service that a notification passes on.
  predicate ReasonFrom(s: State, note: Note, reply: Id) {
    && reply in RowsAbout(s.e.outbox, SeatReservationFailed, note.bookingId)
    && s.e.outbox[reply].envelope.payload.FailurePayload?
    && note.reason == Some(s.e.outbox[reply].envelope.payload.reason)
  }

  lemma RefusalTrail(s: State, b: Id)
    requires b in s.b.bookings && b in s.trails && BookingOk(s, b)
    requires s.trails[b].outcomeRow.Some? && s.trails[b].decision.Refused?
    ensures var t := s.trails[b];
            && t.decision.reply in RowsAbout(s.e.outbox, SeatReservationFailed, b)
            && s.e.outbox[t.decision.reply].envelope.payload.FailurePayload?
            && SamePayload(s.b.outbox, t.outcomeRow.value, s.e.outbox, t.decision.reply)
  {
    assert DecisionOk(s, b, s.b.bookings[b], s.trails[b]) && StatusOk(s, b, s.b.bookings[b], s.trails[b]);
  }

  lemma FailureKeepsItsReason(s: State, n: Id)
    requires BookingsOk(s) && NotesOk(s) && n in s.n.notes && s.n.notes[n].kind == FailedNote
    ensures exists reply :: ReasonFrom(s, s.n.notes[n], reply)
  {
    assert NoteOk(s, n);
    var b := s.n.notes[n].bookingId;
    RefusalTrail(s, b);
    assert ReasonFrom(s, s.n.notes[n], s.trails[b].decision.reply);
  }

  // A stored notification tells the truth about its booking, down to the reason event-service gave.
  lemma NotificationsAreTrue(s: State, n: Id)
    requires Reachable(s) && n in s.n.notes
    ensures var note := s.n.notes[n];
            && note.bookingId in s.b.bookings && HasReached(s, note.bookingId, Reports(note.kind))
            && note.eventId == s.b.bookings[note.bookingId].eventId && note.correlationId == note.bookingId
            && if note.kind == FailedNote then exists reply :: ReasonFrom(s, note, reply) else note.reason == None
  {
    ReachableNotes(s);
    ReachableCore(s);
    NoteFollowsRow(s, n);
    if s.n.notes[n].kind == FailedNote { FailureKeepsItsReason(s, n); }
  }

  lemma NoteFollowsRow(s: State, n: Id)
    requires BookingsOk(s) && RowsOk(s) && NotesOk(s) && n in s.n.notes
    ensures var note := s.n.notes[n];
            && note.bookingId in s.b.bookings && HasReached(s, note.bookingId, Reports(note.kind))
            && note.eventId == s.b.bookings[note.bookingId].eventId && note.correlationId == note.bookingId
            && (note.kind != FailedNote ==> note.reason == None)
  {
    assert NoteOk(s, n);
    var t := s.trails[s.n.notes[n].bookingId];
    StatusOfTrail(s, s.n.notes[n].bookingId);
    BookingRowDescribes(s, if s.n.notes[n].kind == CancelledNote then t.cancelRow.value else t.outcomeRow.value);
  }

  // At most one notification of each kind per booking, never both confirmed and failed.
  lemma NotificationsAreUnique(s: State, n: Id, l: Id)
    requires Reachable(s) && n in s.n.notes && l in s.n.notes && s.n.notes[n].bookingId == s.n.notes[l].bookingId
    ensures s.n.notes[n].kind == s.n.notes[l].kind ==> n == l
    ensures !(s.n.notes[n].kind == ConfirmedNote && s.n.notes[l].kind == FailedNote)
  {
    ReachableNotes(s);
    assert NoteOk(s, n) && NoteOk(s, l);
  }
}
