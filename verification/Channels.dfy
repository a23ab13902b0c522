/** A bounded multi-producer queue of packets, `tokio::sync::mpsc::channel(32)`,
    with both of its ends. */
module Channels {
  import opened Packets

  /** The capacity of every channel of a connection. */
  const CAPACITY: nat := 32

  datatype SendOutcome = Queued | ReceiverGone | QueueFull
  datatype ReceiveOutcome = Got(packet: Packet) | SendersGone | QueueEmpty

  class Channel {
    var queue: seq<Packet>
    var receiverOpen: bool
    var sendersOpen: bool

    ghost predicate Valid()
      reads this
    {
      |queue| <= CAPACITY
    }

    constructor ()
      ensures Valid() && queue == [] && receiverOpen && sendersOpen
    {
      queue := [];
      receiverOpen := true;
      sendersOpen := true;
    }

    /** `send`, up to the point where it would wait. */
    method Send(packet: Packet) returns (r: SendOutcome)
      requires Valid()
      modifies this`queue
      ensures Valid()
      ensures r == if !receiverOpen then ReceiverGone
                   else if |old(queue)| < 32 then Queued else QueueFull
      ensures queue == if r == Queued then old(queue) + [packet] else old(queue)
    {
      if !receiverOpen {
        return ReceiverGone;
      }
      if |queue| == CAPACITY {
        return QueueFull;
      }
      queue := queue + [packet];
      r := Queued;
    }

    /** Dropping the receiving end: what is queued goes with it. */
    method CloseReceiver()
      modifies this`queue, this`receiverOpen
      ensures Valid() && queue == [] && !receiverOpen
    {
      queue := [];
      receiverOpen := false;
    }

    /** `recv`, up to the point where it would wait: what is queued is still
        handed out after the last sender is gone. */
    method Receive() returns (r: ReceiveOutcome)
      requires Valid()
      modifies this`queue
      ensures Valid()
      ensures r == if old(queue) != [] then Got(old(queue)[0])
                   else if sendersOpen then QueueEmpty else SendersGone
      ensures queue == if r.Got? then old(queue)[1..] else []
    {
      if queue != [] {
        r := Got(queue[0]);
        queue := queue[1..];
      } else if sendersOpen {
        r := QueueEmpty;
      } else {
        r := SendersGone;
      }
    }
  }
}
