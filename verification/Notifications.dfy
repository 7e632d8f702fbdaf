/** The last inbox of the chain: notification-service. */
module Notifications {
  import opened Common
  import opened Messages

  datatype Kind = ConfirmedNote | FailedNote | CancelledNote

  datatype Note = Note(kind: Kind, correlationId: Id, bookingId: Id, eventId: Id, reason: Option<Reason>)

  // Notifications by message id, which is unique in both tables.
  datatype NoteDb = NoteDb(inbox: set<Id>, notes: map<Id, Note>)

  function AppendIfUnprocessed(db: NoteDb, messageId: Id, note: Note): (NoteDb, bool) {
    if messageId in db.inbox || messageId in db.notes then (db, false)
    else (NoteDb(db.inbox + {messageId}, db.notes[messageId := note]), true)
  }

  // A repeated message changes nothing, and the order in which different messages arrive does not matter.
  lemma AppendsCommute(db: NoteDb, m: Id, note: Note, n: Id, other: Note)
    ensures AppendIfUnprocessed(AppendIfUnprocessed(db, m, note).0, m, other) == (AppendIfUnprocessed(db, m, note).0, false)
    ensures m != n ==>
              && AppendIfUnprocessed(AppendIfUnprocessed(db, m, note).0, n, other).0
                 == AppendIfUnprocessed(AppendIfUnprocessed(db, n, other).0, m, note).0
              && AppendIfUnprocessed(AppendIfUnprocessed(db, m, note).0, n, other).1 == AppendIfUnprocessed(db, n, other).1
  {
    if m != n {
      assert db.notes[m := note][n := other] == db.notes[n := other][m := note];
      assert db.inbox + {m} + {n} == db.inbox + {n} + {m};
    }
  }

  predicate Notifies(topic: Topic) {
    topic in {BookingConfirmed, BookingFailed, BookingCancelled}
  }

  function KindOf(topic: Topic): Kind
    requires Notifies(topic)
  {
    match topic
    case BookingConfirmed => ConfirmedNote
    case BookingFailed => FailedNote
    case BookingCancelled => CancelledNote
  }

  // The three handlers of the notification consumer.
  function NoteOf(m: Message): Note
    requires Notifies(m.topic)
  {
    Note(KindOf(m.topic), m.envelope.correlationId, m.envelope.payload.bookingId, m.envelope.payload.eventId,
         if m.envelope.payload.FailurePayload? then Some(m.envelope.payload.reason) else None)
  }
}
