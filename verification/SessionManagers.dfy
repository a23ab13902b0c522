/** The registry of a connection: which inbound channel belongs to which
    session id, and whether new sessions are accepted. */
module SessionManagers {
  import opened Primitives
  import opened Packets
  import opened Channels
  import opened Sessions

  /** The receiving side of a session as its senders see it. */
  datatype Mailbox = Mailbox(queue: seq<Packet>, open: bool)

  datatype Delivery = NoSuchSession | Gone | MustWait | Delivered

  /** Where a packet goes: to the mailbox of its own session id, or nowhere. */
  function Verdict(boxes: map<u32, Mailbox>, p: Packet): Delivery {
    var id := p.header.sessionId;
    if id !in boxes then NoSuchSession
    else if !boxes[id].open then Gone
    else if |boxes[id].queue| < CAPACITY then Delivered
    else MustWait
  }

  function Route(boxes: map<u32, Mailbox>, p: Packet): map<u32, Mailbox> {
    if Verdict(boxes, p) == Delivered then
      var id := p.header.sessionId;
      boxes[id := boxes[id].(queue := boxes[id].queue + [p])]
    else boxes
  }

  /** Position of the first draw that is not in use, or the number of draws. */
  function FirstUnused(draws: seq<u32>, used: set<u32>): (n: nat)
    ensures n <= |draws|
    ensures n < |draws| ==> draws[n] !in used
    ensures forall i :: 0 <= i < n ==> draws[i] in used
  {
    if draws == [] || draws[0] !in used then 0 else 1 + FirstUnused(draws[1..], used)
  }

  class SessionManager {
    var duplexChannels: map<u32, Channel>
    const sender: Channel
    var canAcceptNewSessions: bool

    /** The channels of different sessions are different objects, none of them
        the outbound one, of which the manager itself keeps a sender. */
    ghost predicate Valid()
      reads this, sender, duplexChannels.Values
    {
      && sender.Valid() && sender.sendersOpen
      && (forall id :: id in duplexChannels ==> duplexChannels[id] != sender && duplexChannels[id].Valid())
      && (forall id, other :: id in duplexChannels && other in duplexChannels && id != other ==>
            duplexChannels[id] != duplexChannels[other])
    }

    ghost function Mailboxes(): map<u32, Mailbox>
      reads this, duplexChannels.Values
    {
      map id | id in duplexChannels :: Mailbox(duplexChannels[id].queue, duplexChannels[id].receiverOpen)
    }

    constructor ()
      ensures Valid() && canAcceptNewSessions && duplexChannels == map[]
      ensures fresh(sender) && sender.queue == [] && sender.receiverOpen
    {
      duplexChannels := map[];
      sender := new Channel();
      canAcceptNewSessions := true;
    }

    method DisableNewSessions()
      modifies this`canAcceptNewSessions
      ensures !canAcceptNewSessions
    {
      canAcceptNewSessions := false;
    }

    method CanCreateSessions() returns (b: bool)
      ensures b == canAcceptNewSessions
    {
      b := canAcceptNewSessions;
    }

    /** `create_channel`.  The random generator is the list of numbers it is
        going to draw; the loop redraws while the id is taken.  None stands for
        a loop that is still drawing when the list ends. */
    method CreateChannel(draws: seq<u32>) returns (r: Option<(Channel, u32)>)
      requires Valid()
      modifies this`duplexChannels
      ensures Valid()
      ensures var n := FirstUnused(draws, old(duplexChannels.Keys));
              if n == |draws| then r == None && duplexChannels == old(duplexChannels)
              else
                && r.Some? && r.value.1 == draws[n] && fresh(r.value.0)
                && duplexChannels == old(duplexChannels)[draws[n] := r.value.0]
                && r.value.0.queue == [] && r.value.0.receiverOpen && r.value.0.sendersOpen
      ensures forall id :: id in old(duplexChannels) ==>
                id in duplexChannels && duplexChannels[id] == old(duplexChannels)[id]
    {
      var channel := new Channel();
      var i := 0;
      while i < |draws| && draws[i] in duplexChannels
        invariant 0 <= i <= |draws|
        invariant forall k :: 0 <= k < i ==> draws[k] in duplexChannels
        invariant duplexChannels == old(duplexChannels)
      {
        i := i + 1;
      }
      FirstUnusedIsUnique(draws, duplexChannels.Keys, i);
      if i == |draws| {
        return None;
      }
      duplexChannels := duplexChannels[draws[i] := channel];
      r := Some((channel, draws[i]));
    }

    /** `create_session`: refused once new sessions are disabled. */
    method CreateSession(draws: seq<u32>) returns (r: Option<Session>)
      requires Valid()
      modifies this`duplexChannels
      ensures Valid()
      ensures r.Some? <==> old(canAcceptNewSessions) && FirstUnused(draws, old(duplexChannels.Keys)) < |draws|
      ensures r.None? ==> duplexChannels == old(duplexChannels)
      ensures r.Some? ==>
                var session := r.value;
                && fresh(session) && session.Valid() && session.sender == sender
                && session.sessionId !in old(duplexChannels)
                && duplexChannels == old(duplexChannels)[session.sessionId := session.receiver]
                && session.receiver.queue == [] && session.receiver.receiverOpen && session.receiver.sendersOpen
                && session.currentSequenceNumber == FIRST_SEQUENCE_NUMBER && !session.sessionComplete
    {
      var allowed := CanCreateSessions();
      if !allowed {
        return None;
      }
      var made := CreateChannel(draws);
      match made
      case None => r := None;
      case Some((channel, id)) =>
        var session := new Session(id, channel, sender);
        r := Some(session);
    }

    function Targets(id: u32): set<Channel>
      reads this
    {
      if id in duplexChannels then {duplexChannels[id]} else {}
    }

    /** `send_message_to_session`, up to the point where it would wait. */
    method SendMessageToSession(packet: Packet) returns (r: Delivery)
      requires Valid()
      modifies Targets(packet.header.sessionId)`queue
      ensures Valid()
      ensures r == Verdict(old(Mailboxes()), packet)
      ensures r == NoSuchSession <==> packet.header.sessionId !in duplexChannels
      ensures packet.header.sessionId in duplexChannels ==>
                var channel := duplexChannels[packet.header.sessionId];
                && (r == Gone <==> !channel.receiverOpen)
                && (r == MustWait <==> channel.receiverOpen && |old(channel.queue)| == 32)
                && channel.queue == old(channel.queue) + if r == Delivered then [packet] else []
      ensures Mailboxes() == Route(old(Mailboxes()), packet)
      ensures r != Delivered ==> Mailboxes() == old(Mailboxes())
    {
      var id := packet.header.sessionId;
      if id !in duplexChannels {
        return NoSuchSession;
      }
      var sent := duplexChannels[id].Send(packet);
      match sent
      case Queued => r := Delivered;
      case ReceiverGone => r := Gone;
      case QueueFull => r := MustWait;
    }
  }

  lemma {:induction false} FirstUnusedIsUnique(draws: seq<u32>, used: set<u32>, n: nat)
    requires n <= |draws| && (n < |draws| ==> draws[n] !in used)
    requires forall i :: 0 <= i < n ==> draws[i] in used
    ensures FirstUnused(draws, used) == n
  {
  }
}
