/** A session: its sequence counter, its completion flag and the client side
    of one accounting exchange. */
module Sessions {
  import opened Primitives
  import opened Enumerations
  import opened Packets
  import opened Channels
  import Headers
  import Requests = AccountingRequests
  import Replies = AccountingReplies

  const FIRST_SEQUENCE_NUMBER: byte := 1

  /** `wrapping_add(2)`. */
  function NextSequenceNumber(n: byte): byte {
    (n + 2) % 0x100
  }

  /** The number the `i`-th request of a session bears, counting from 0. */
  function SequenceNumberAt(i: nat): byte {
    if i == 0 then FIRST_SEQUENCE_NUMBER else NextSequenceNumber(SequenceNumberAt(i - 1))
  }

  /** Request numbers are always odd and go round after 128 requests: two
      requests of a session share one exactly when that many, or a multiple,
      lie between them. */
  lemma SequenceNumbersRepeat(i: nat, j: nat)
    ensures SequenceNumberAt(i) % 2 == 1
    ensures SequenceNumberAt(i) == SequenceNumberAt(j) <==> (i - j) % 128 == 0
  {
    var a := SequenceNumberClosed(i);
    var b := SequenceNumberClosed(j);
    Parity(i - 128 * a);
    SameRest(i, j, a, b);
  }

  /** The number 255 is the last of every round: exactly the draws 127, 255,
      383 and so on bear it. */
  lemma EveryRoundEndsAt255(i: nat)
    ensures SequenceNumberAt(i) == 0xff <==> i % 128 == 127
  {
    hide SequenceNumberAt;
    var rounds := SequenceNumberClosed(i);
    Rest(i, rounds);
  }

  lemma Rest(i: int, rounds: int)
    requires 0 <= i - 128 * rounds < 128
    ensures i % 128 == i - 128 * rounds
  {
  }

  lemma SameRest(i: int, j: int, a: int, b: int)
    requires 0 <= i - 128 * a < 128 && 0 <= j - 128 * b < 128
    ensures i - 128 * a == j - 128 * b <==> (i - j) % 128 == 0
  {
    var d := (i - 128 * a) - (j - 128 * b);
    assert i - j == 128 * (a - b) + d;
    if d >= 0 {
      assert (i - j) % 128 == d;
    } else {
      assert (i - j) % 128 == d + 128;
    }
  }

  lemma Parity(n: int)
    ensures (1 + 2 * n) % 2 == 1
  {
  }

  lemma {:induction false} SequenceNumberClosed(i: nat) returns (rounds: int)
    ensures SequenceNumberAt(i) == 1 + 2 * (i - 128 * rounds)
    ensures 0 <= i - 128 * rounds < 128
  {
    rounds := 0;
    if i > 0 {
      rounds := SequenceNumberClosed(i - 1);
      if i - 128 * rounds == 128 {
        rounds := rounds + 1;
      }
    }
  }

  /** The packet a request travels in: the length field keeps the low 32 bits
      of the length, which `Packet::new` never objects to. */
  function RequestPacket(id: u32, seqNo: byte, request: Requests.AccountingRequest): Packet {
    var data := Requests.Encoding(request);
    Packet(Headers.Header(Major1, MinorDefault, Accounting, seqNo, HeaderFlags(true, false), id,
                          |data| % 0x1_0000_0000),
           data)
  }

  lemma RequestPacketIsAccepted(id: u32, seqNo: byte, request: Requests.AccountingRequest)
    ensures var p := RequestPacket(id, seqNo, request); New(p.header, p.body) == Success(p)
  {
  }

  /** The packet a reply travels in, as the mock connection builds it. */
  function ReplyPacket(id: u32, seqNo: byte, reply: Replies.AccountingReply): Packet {
    var data := Replies.Encoding(reply);
    Packet(Headers.Header(Major1, MinorDefault, Accounting, seqNo, HeaderFlags(true, false), id,
                          |data| % 0x1_0000_0000),
           data)
  }

  /** The frame of a packet that starts an accounting exchange or answers one:
      version 0xc0, type 3, the number, the unencrypted flag alone, the session
      id, the low 32 bits of the length of the body, and the body. */
  predicate AccountingFrame(s: seq<byte>, id: u32, seqNo: byte, body: seq<byte>) {
    && |s| == 12 + |body| && s[..4] == [0xc0, 0x03, seqNo, 0x01]
    && s[4] as int * 0x100_0000 + s[5] as int * 0x1_0000 + s[6] as int * 0x100 + s[7] == id
    && s[8] as int * 0x100_0000 + s[9] as int * 0x1_0000 + s[10] as int * 0x100 + s[11] == |body| % 0x1_0000_0000
    && s[12..] == body
  }

  /** The bytes in which a request and a reply travel without a key. */
  lemma FramesOnTheWire(id: u32, seqNo: byte, request: Requests.AccountingRequest, reply: Replies.AccountingReply)
    ensures AccountingFrame(Packets.Encoding(RequestPacket(id, seqNo, request)), id, seqNo, Requests.Encoding(request))
    ensures AccountingFrame(Packets.Encoding(ReplyPacket(id, seqNo, reply)), id, seqNo, Replies.Encoding(reply))
  {
    hide Requests.Encoding, Replies.Encoding;
    FrameOnTheWire(RequestPacket(id, seqNo, request));
    FrameOnTheWire(ReplyPacket(id, seqNo, reply));
  }

  lemma FrameOnTheWire(p: Packet)
    requires p.header == Headers.Header(Major1, MinorDefault, Accounting, p.header.seqNo, HeaderFlags(true, false),
                                        p.header.sessionId, |p.body| % 0x1_0000_0000)
    ensures AccountingFrame(Packets.Encoding(p), p.header.sessionId, p.header.seqNo, p.body)
  {
    var s := Headers.Encoding(p.header);
    Headers.HeadersOnTheWire([], p.header);
    assert s[..4] == [s[0], s[1], s[2], s[3]];
    assert Packets.Encoding(p)[..12] == s;
    assert forall i :: 0 <= i < 12 ==> Packets.Encoding(p)[i] == s[i];
    assert Packets.Encoding(p)[..4] == s[..4];
  }

  datatype SubmitOutcome =
    | Waiting(packet: Packet)            // numbered, but the outbound queue is full
    | NetworkGone
    | Submitted

  datatype FinishOutcome =
    | Answered(reply: Replies.AccountingReply)
    | Undecodable(error: Replies.ReplyError)
    | ChannelGone
    | NoAnswerYet

  class Session {
    const sessionId: u32
    const sender: Channel                // outbound, shared with every session
    const receiver: Channel              // inbound, this session's own
    var currentSequenceNumber: byte
    var sessionComplete: bool

    ghost predicate Valid()
      reads this, sender, receiver
    {
      sender != receiver && sender.Valid() && receiver.Valid()
    }

    constructor (sessionId: u32, receiver: Channel, sender: Channel)
      requires sender != receiver && sender.Valid() && receiver.Valid()
      ensures Valid() && this.sessionId == sessionId && this.receiver == receiver && this.sender == sender
      ensures currentSequenceNumber == FIRST_SEQUENCE_NUMBER && !sessionComplete
    {
      this.sessionId := sessionId;
      this.receiver := receiver;
      this.sender := sender;
      currentSequenceNumber := FIRST_SEQUENCE_NUMBER;
      sessionComplete := false;
    }

    method TakeSequenceNumber() returns (n: byte)
      modifies this`currentSequenceNumber
      ensures n == old(currentSequenceNumber) && currentSequenceNumber == NextSequenceNumber(n)
    {
      n := currentSequenceNumber;
      currentSequenceNumber := NextSequenceNumber(n);
    }

    method Complete()
      modifies this`sessionComplete
      ensures sessionComplete
    {
      sessionComplete := true;
    }

    /** A session also counts as complete once either channel is closed. */
    method IsComplete() returns (b: bool)
      ensures b <==> sessionComplete || !sender.receiverOpen || !receiver.sendersOpen
    {
      if !sender.receiverOpen {
        return true;
      }
      if !receiver.sendersOpen {
        return true;
      }
      b := sessionComplete;
    }

    /** `send_accounting_request` from the passed completion check to its wait
        for the response.  Other tasks may have run since the check, so nothing
        is known of the channels: the number is drawn in any case, then the one
        packet of the request is queued, waits for room, or finds the outbound
        channel closed. */
    method SubmitAccountingRequest(request: Requests.AccountingRequest) returns (r: SubmitOutcome)
      requires Valid()
      modifies this`currentSequenceNumber, sender`queue
      ensures Valid()
      ensures currentSequenceNumber == NextSequenceNumber(old(currentSequenceNumber))
      ensures var packet := RequestPacket(sessionId, old(currentSequenceNumber), request);
              && r == (if !sender.receiverOpen then NetworkGone
                       else if |old(sender.queue)| < CAPACITY then Submitted else Waiting(packet))
              && sender.queue == (if r == Submitted then old(sender.queue) + [packet] else old(sender.queue))
    {
      var n := TakeSequenceNumber();
      var data := Requests.ToBytes(request);
      var packet := Packet(
        Headers.Header(Major1, MinorDefault, Accounting, n, HeaderFlags(true, false), sessionId,
                       |data| % 0x1_0000_0000),
        data);
      r := SendPacket(packet);
    }

    /** The send itself, also where a waiting one goes on: no new number. */
    method SendPacket(packet: Packet) returns (r: SubmitOutcome)
      requires Valid()
      modifies sender`queue
      ensures Valid()
      ensures r == if !sender.receiverOpen then NetworkGone
                   else if |old(sender.queue)| < CAPACITY then Submitted else Waiting(packet)
      ensures sender.queue == if r == Submitted then old(sender.queue) + [packet] else old(sender.queue)
    {
      var sent := sender.Send(packet);
      match sent
      case Queued => r := Submitted;
      case ReceiverGone => r := NetworkGone;
      case QueueFull => r := Waiting(packet);
    }

    /** The rest of it, from taking the receiver on: only a decodable response
        completes the session. */
    method FinishAccountingRequest() returns (r: FinishOutcome)
      requires Valid()
      modifies this`sessionComplete, receiver`queue
      ensures Valid()
      ensures old(receiver.queue) == [] ==>
                && r == (if receiver.sendersOpen then NoAnswerYet else ChannelGone)
                && receiver.queue == []
      ensures old(receiver.queue) != [] ==>
                && receiver.queue == old(receiver.queue)[1..]
                && match Replies.Decoding(old(receiver.queue)[0].body)
                   case Success(reply) => r == Answered(reply)
                   case Failure(error) => r == Undecodable(error)
      ensures sessionComplete == (old(sessionComplete) || r.Answered?)
    {
      var response := receiver.Receive();
      match response
      case SendersGone => r := ChannelGone;
      case QueueEmpty => r := NoAnswerYet;
      case Got(packet) =>
        var reply := Replies.FromBytes(packet.body);
        match reply
        case Failure(error) => r := Undecodable(error);
        case Success(value) =>
          Complete();
          r := Answered(value);
    }
  }
}
