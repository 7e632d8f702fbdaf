/** The message contracts of packages/contracts/src/index.ts. */
module Messages {
  import opened Common

  datatype Topic =
    | ReserveSeats
    | SeatsReserved
    | SeatReservationFailed
    | BookingConfirmed
    | BookingFailed
    | BookingCancelled

  datatype Reason = InsufficientSeats | EventNotFound

  datatype Payload =
    | ReservePayload(bookingId: Id, eventId: Id, userId: Id, quantity: int)
    | SeatsPayload(bookingId: Id, eventId: Id, quantity: int)
    | FailurePayload(bookingId: Id, eventId: Id, reason: Reason)

  datatype Envelope = Envelope(messageId: Id, correlationId: Id, timestamp: Time, payload: Payload)

  // What is stored in an outbox row and handed to Kafka.
  datatype Message = Message(topic: Topic, envelope: Envelope)
  {
    function Key(): Id {
      envelope.messageId
    }

    // Two envelopes built at different moments for the same decision differ at most in their timestamp.
    predicate SameContent(other: Message) {
      && topic == other.topic
      && envelope.messageId == other.envelope.messageId
      && envelope.correlationId == other.envelope.correlationId
      && envelope.payload == other.envelope.payload
    }

    // The schema check a consumer applies before a handler sees the message.
    predicate WellTyped() {
      match topic
      case ReserveSeats => envelope.payload.ReservePayload? && envelope.payload.quantity > 0
      case SeatsReserved | BookingConfirmed | BookingCancelled =>
        envelope.payload.SeatsPayload? && envelope.payload.quantity > 0
      case SeatReservationFailed | BookingFailed => envelope.payload.FailurePayload?
    }
  }
}
