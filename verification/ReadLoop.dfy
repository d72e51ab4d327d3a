/**
 From the bytes of a read to the events of the machine (`handle_read` and `read_message` in
 connection_fsm.hpp, handler_parse_result.hpp).
 */
module ReadLoop {
  import opened Resp
  import opened Parser
  import opened Events

  /** The event raised for a parse outcome. */
  function Reaction(r: ParseResult): Event {
    match r
    case ProtocolError(code) => QueryError(Protocol(code))
    case ServerError(message, _) => QueryError(Server(message))
    case Positive(value, _) => Recv(value)
  }

  /** The events one read raises. A protocol error ends it and drops the bytes that are left. */
  function Deliver(bytes: string): seq<Event> {
    if bytes == "" then []
    else
      var r := Parse(bytes);
      [Reaction(r)] + if r.ProtocolError? then [] else Deliver(bytes[r.consumed..])
  }

  lemma DeliverStep(bytes: string, consumed: nat)
    requires bytes != ""
    requires consumed == if Parse(bytes).ProtocolError? then |bytes| else Parse(bytes).consumed
    ensures Deliver(bytes) == [Reaction(Parse(bytes))] + Deliver(bytes[consumed..])
  {
    hide Parse, Deliver;
    DeliverFirst(bytes);
    DeliverNothing();
    hide Reaction;
    if Parse(bytes).ProtocolError? {
      assert bytes[consumed..] == "";
    }
  }

  lemma Regroup<T>(a: seq<T>, b: seq<T>, c: seq<T>)
    ensures a + (b + c) == a + b + c
  {
  }

  lemma DeliverNothing()
    ensures Deliver("") == []
  {
  }

  /** One round of the read loop. */
  lemma DeliverFirst(bytes: string)
    requires bytes != ""
    ensures
      var r := Parse(bytes);
      Deliver(bytes) == [Reaction(r)] + if r.ProtocolError? then [] else Deliver(bytes[r.consumed..])
  {
    hide Parse;
  }

  /** `size_t` subtraction, which wraps below zero. */
  function SubSize(a: nat, b: nat): (r: nat)
    ensures b <= a < SIZE_T_RANGE ==> r == a - b
  {
    (a - b) % SIZE_T_RANGE
  }

  class Receiver {
    var incoming: string
    var delivered: seq<Event>

    constructor ()
      ensures incoming == "" && delivered == []
    {
      incoming, delivered := "", [];
    }

    /** `streambuf::consume` stops at the end of the buffer. */
    method Consume(count: nat)
      modifies this`incoming
      ensures incoming == if count <= |old(incoming)| then old(incoming)[count..] else ""
    {
      incoming := if count <= |incoming| then incoming[count..] else "";
    }

    /**
     One round of the loop: what `handler_parse_result_t` raises for the reply at the front of
     the buffer, and the bytes that are left. A protocol error uses none, so it takes them all.
     */
    method TakeReply(maxBytes: nat) returns (event: Event, left: nat)
      requires 0 < |incoming| == maxBytes < SIZE_T_RANGE
      modifies this`incoming
      ensures |incoming| == left < maxBytes
      ensures Deliver(old(incoming)) == [event] + Deliver(incoming)
      ensures event.Recv? || event.QueryError?
    {
      hide Parse, Deliver, SubSize;
      var parsed := RawParse(incoming, 0);
      assert incoming[0..] == incoming;
      event := Reaction(parsed);
      var consumed := if parsed.ProtocolError? then 0 else parsed.consumed;
      if consumed == 0 {
        consumed := maxBytes;
      }
      assert 1 <= consumed <= maxBytes;
      DeliverStep(incoming, consumed);
      Consume(consumed);
      left := SubSize(maxBytes, consumed);
    }

    /**
     The loop of a read. Every round uses at least one byte and no more than there are, so
     the byte count does not wrap, the loop ends, and nothing is left for the next read.
     */
    method ReadMessage(transferred: nat)
      requires |incoming| == transferred < SIZE_T_RANGE
      modifies this
      ensures incoming == ""
      ensures delivered == old(delivered) + Deliver(old(incoming))
    {
      hide Deliver;
      DeliverNothing();
      var maxBytes := transferred;
      while maxBytes > 0
        invariant |incoming| == maxBytes < SIZE_T_RANGE
        invariant delivered + Deliver(incoming) == old(delivered) + Deliver(old(incoming))
        decreases maxBytes
      {
        ghost var before := delivered;
        var event;
        event, maxBytes := TakeReply(maxBytes);
        delivered := delivered + [event];
        Regroup(before, [event], Deliver(incoming));
      }
    }

    method HandleRead(chunk: string)
      requires incoming == "" && |chunk| < SIZE_T_RANGE
      modifies this
      ensures incoming == ""
      ensures delivered == old(delivered) + Deliver(chunk)
    {
      incoming := incoming + chunk;
      assert incoming == chunk;
      ReadMessage(|chunk|);
    }
  }
}
