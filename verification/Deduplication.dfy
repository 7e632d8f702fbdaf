/**
 Exactly-once by inbox: over any trace of deliveries and other transactions, the three databases end up as if every
 repeated delivery had never happened.
 */
module Deduplication {
  import opened Common
  import opened Messages
  import opened Bookings
  import opened Inventory
  import opened Notifications

  datatype Dbs = Dbs(b: BookingDb, e: EventDb, n: NoteDb)

  datatype Consumer = BookingService | EventService | NotificationService

  // Deliveries, with whatever identifiers the handler draws this time, and the transactions that run between them.
  datatype Op =
    | Reserve(messageId: Id, eventId: Id, quantity: int, success: NewRow, failure: FailureRow, seen: bool)
    | Release(messageId: Id, eventId: Id, quantity: int)
    | Confirm(messageId: Id, booking: Id, eventId: Id, quantity: int, row: NewRow)
    | Refuse(messageId: Id, booking: Id, eventId: Id, row: NewRow)
    | Tell(messageId: Id, note: Note)
    | Book(booking: Id, request: CreateRequest, row: NewRow)
    | CallOff(booking: Id, row: NewRow)
    | Open(eventId: Id, total: int)
    | Resize(eventId: Id, total: int)
    | Close(eventId: Id)

  predicate IsDelivery(op: Op) {
    op.Reserve? || op.Release? || op.Confirm? || op.Refuse? || op.Tell?
  }

  function Receiver(op: Op): (Consumer, Id)
    requires IsDelivery(op)
  {
    (if op.Reserve? || op.Release? then EventService else if op.Tell? then NotificationService else BookingService,
     op.messageId)
  }

  function Apply(dbs: Dbs, op: Op): Dbs {
    match op
    case Reserve(m, e, q, success, failure, seen) => dbs.(e := ProcessReserveSeats(dbs.e, m, e, q, success, failure, seen).db)
    case Release(m, e, q) => dbs.(e := ProcessReleaseSeats(dbs.e, m, e, q).db)
    case Confirm(m, b, e, q, row) => dbs.(b := ProcessSeatsReserved(dbs.b, m, b, e, q, row).db)
    case Refuse(m, b, e, row) => dbs.(b := ProcessSeatReservationFailed(dbs.b, m, b, e, row).db)
    case Tell(m, note) => dbs.(n := AppendIfUnprocessed(dbs.n, m, note).0)
    case Book(b, request, row) => dbs.(b := CreateBookingWithOutbox(dbs.b, b, request, row).db)
    case CallOff(b, row) => dbs.(b := CancelBookingWithOutbox(dbs.b, b, row).db)
    case Open(e, total) => dbs.(e := CreateEvent(dbs.e, e, total).db)
    case Resize(e, total) => dbs.(e := UpdateEvent(dbs.e, e, total).db)
    case Close(e) => dbs.(e := DeleteEvent(dbs.e, e).db)
  }

  // The drawn identifiers hit no unique index, which would roll the delivery back for another try.
  predicate Clashes(dbs: Dbs, op: Op) {
    match op
    case Reserve(m, e, q, success, failure, seen) =>
      ProcessReserveSeats(dbs.e, m, e, q, success, failure, seen).result.ReserveUniqueViolation?
    case Confirm(m, b, e, q, row) => ProcessSeatsReserved(dbs.b, m, b, e, q, row).result.ReplyUniqueViolation?
    case Refuse(m, b, e, row) => ProcessSeatReservationFailed(dbs.b, m, b, e, row).result.ReplyUniqueViolation?
    case Tell(m, _) => m in dbs.n.notes && m !in dbs.n.inbox
    case _ => false
  }

  function After(dbs: Dbs, trace: seq<Op>): Dbs
    decreases trace
  {
    if trace == [] then dbs else After(Apply(dbs, trace[0]), trace[1..])
  }

  predicate NoClash(dbs: Dbs, trace: seq<Op>)
    decreases trace
  {
    trace == [] || (!Clashes(dbs, trace[0]) && NoClash(Apply(dbs, trace[0]), trace[1..]))
  }

  // The trace without the deliveries whose receiver has had the message before.
  function FirstOnly(trace: seq<Op>, had: set<(Consumer, Id)>): seq<Op>
    decreases trace
  {
    if trace == [] then []
    else if !IsDelivery(trace[0]) then [trace[0]] + FirstOnly(trace[1..], had)
    else if Receiver(trace[0]) in had then FirstOnly(trace[1..], had)
    else [trace[0]] + FirstOnly(trace[1..], had + {Receiver(trace[0])})
  }

  ghost predicate Had(dbs: Dbs, r: (Consumer, Id)) {
    match r.0
    case BookingService => r.1 in dbs.b.inbox
    case EventService => r.1 in dbs.e.inbox
    case NotificationService => r.1 in dbs.n.inbox
  }

  lemma RepeatChangesNothing(dbs: Dbs, op: Op)
    requires IsDelivery(op) && Had(dbs, Receiver(op))
    ensures Apply(dbs, op) == dbs
  {
  }

  lemma DeliveryIsRemembered(dbs: Dbs, op: Op, r: (Consumer, Id))
    requires !Clashes(dbs, op)
    requires Had(dbs, r) || (IsDelivery(op) && Receiver(op) == r)
    ensures Had(Apply(dbs, op), r)
  {
  }

  // The databases cannot tell a trace from the same trace without its repeats.
  lemma {:induction false} RepeatsDoNotMatter(dbs: Dbs, trace: seq<Op>, had: set<(Consumer, Id)>)
    requires NoClash(dbs, trace) && forall r :: r in had ==> Had(dbs, r)
    ensures After(dbs, trace) == After(dbs, FirstOnly(trace, had))
    decreases trace
  {
    if trace != [] {
      var op, rest := trace[0], trace[1..];
      var next := Apply(dbs, op);
      forall r | r in had ensures Had(next, r) { DeliveryIsRemembered(dbs, op, r); }
      if !IsDelivery(op) {
        RepeatsDoNotMatter(next, rest, had);
        assert FirstOnly(trace, had) == [op] + FirstOnly(rest, had);
      } else if Receiver(op) in had {
        RepeatChangesNothing(dbs, op);
        RepeatsDoNotMatter(dbs, rest, had);
      } else {
        DeliveryIsRemembered(dbs, op, Receiver(op));
        RepeatsDoNotMatter(next, rest, had + {Receiver(op)});
        assert FirstOnly(trace, had) == [op] + FirstOnly(rest, had + {Receiver(op)});
      }
    }
  }

  ghost predicate Unrepeated(kept: seq<Op>, had: set<(Consumer, Id)>) {
    && (forall i :: 0 <= i < |kept| && IsDelivery(kept[i]) ==> Receiver(kept[i]) !in had)
    && (forall i, j :: 0 <= i < j < |kept| && IsDelivery(kept[i]) && IsDelivery(kept[j]) ==>
          Receiver(kept[i]) != Receiver(kept[j]))
  }

  lemma KeptInFront(op: Op, kept: seq<Op>, had: set<(Consumer, Id)>)
    requires IsDelivery(op) ==> Receiver(op) !in had
    requires Unrepeated(kept, if IsDelivery(op) then had + {Receiver(op)} else had)
    ensures Unrepeated([op] + kept, had)
  {
  }

  // What is left has each message once per consumer.
  lemma {:induction false} FirstOnlyHasNoRepeats(trace: seq<Op>, had: set<(Consumer, Id)>)
    ensures Unrepeated(FirstOnly(trace, had), had)
    decreases trace
  {
    if trace != [] {
      var op, rest := trace[0], trace[1..];
      if IsDelivery(op) && Receiver(op) !in had {
        FirstOnlyHasNoRepeats(rest, had + {Receiver(op)});
        KeptInFront(op, FirstOnly(rest, had + {Receiver(op)}), had);
      } else {
        FirstOnlyHasNoRepeats(rest, had);
        if !IsDelivery(op) { KeptInFront(op, FirstOnly(rest, had), had); }
      }
    }
  }

  // The trace without the deliveries that were rolled back.
  function Committed(dbs: Dbs, trace: seq<Op>): seq<Op>
    decreases trace
  {
    if trace == [] then []
    else if Clashes(dbs, trace[0]) then Committed(dbs, trace[1..])
    else [trace[0]] + Committed(Apply(dbs, trace[0]), trace[1..])
  }

  lemma {:induction false} RollbacksDoNotMatter(dbs: Dbs, trace: seq<Op>)
    ensures NoClash(dbs, Committed(dbs, trace)) && After(dbs, Committed(dbs, trace)) == After(dbs, trace)
    ensures NoClash(dbs, trace) ==> Committed(dbs, trace) == trace
    decreases trace
  {
    if trace != [] {
      var op, rest := trace[0], trace[1..];
      if Clashes(dbs, op) {
        assert Apply(dbs, op) == dbs;
        RollbacksDoNotMatter(dbs, rest);
      } else {
        RollbacksDoNotMatter(Apply(dbs, op), rest);
        assert Committed(dbs, trace)[1..] == Committed(Apply(dbs, op), rest);
      }
    }
  }

  // Deduplication refines exactly-once delivery, for all consumers and all traces. A delivery that was rolled back has
  // not happened, so the next copy of its message is the first.
  lemma ExactlyOnce(dbs: Dbs, trace: seq<Op>)
    ensures After(dbs, trace) == After(dbs, FirstOnly(Committed(dbs, trace), {}))
    ensures NoClash(dbs, trace) ==> After(dbs, trace) == After(dbs, FirstOnly(trace, {}))
  {
    RollbacksDoNotMatter(dbs, trace);
    RepeatsDoNotMatter(dbs, Committed(dbs, trace), {});
  }
}
