/** The connection's event sink, reduced to a record of the calls the
    datagram engine makes on it. */
module Events {
  import opened Common

  datatype OutgoingDatagramOutcome = DroppedTooBig | DroppedQueueFull | Acked | Lost

  /** One `datagram_outcome(id, outcome)` call. */
  datatype OutcomeEvent = OutcomeEvent(id: Option<u64>, outcome: OutgoingDatagramOutcome)

  /** One `add_datagram(max_queued, data)` call. */
  datatype IncomingDatagram = IncomingDatagram(maxQueued: nat, data: seq<byte>)

  class ConnectionEvents {
    var outcomes: seq<OutcomeEvent>
    var incoming: seq<IncomingDatagram>

    constructor ()
      ensures outcomes == [] && incoming == []
    {
      outcomes, incoming := [], [];
    }

    method DatagramOutcome(id: Option<u64>, outcome: OutgoingDatagramOutcome)
      modifies this`outcomes
      ensures outcomes == old(outcomes) + [OutcomeEvent(id, outcome)]
    {
      outcomes := outcomes + [OutcomeEvent(id, outcome)];
    }

    method AddDatagram(maxQueued: nat, data: seq<byte>)
      modifies this`incoming
      ensures incoming == old(incoming) + [IncomingDatagram(maxQueued, data)]
    {
      incoming := incoming + [IncomingDatagram(maxQueued, data)];
    }
  }
}
