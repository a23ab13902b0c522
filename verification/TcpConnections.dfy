/** The two loops of a connection as tasks that are polled: each runs until it
    has to wait, ends or panics, and goes on from there at the next poll. */
module TcpConnections {
  import opened Primitives
  import opened Packets
  import opened Framing
  import opened Channels
  import opened SessionManagers
  import Headers

  datatype Progress = Pending | Ended | Failed | Panicked

  /** Routing a whole list of packets, one after the other. */
  function RouteAll(boxes: map<u32, Mailbox>, packets: seq<Packet>): map<u32, Mailbox> {
    if packets == [] then boxes
    else Route(RouteAll(boxes, packets[..|packets| - 1]), packets[|packets| - 1])
  }

  predicate RoomFor(boxes: map<u32, Mailbox>, packets: seq<Packet>, i: nat)
    requires i < |packets|
  {
    Verdict(RouteAll(boxes, packets[..i]), packets[i]) != MustWait
  }

  /** No packet had to wait, which is when the loop goes on to the next. */
  predicate NeverFull(boxes: map<u32, Mailbox>, packets: seq<Packet>) {
    forall i :: 0 <= i < |packets| ==> RoomFor(boxes, packets, i)
  }

  lemma RouteOneMore(boxes: map<u32, Mailbox>, packets: seq<Packet>, p: Packet)
    ensures RouteAll(boxes, packets + [p]) == Route(RouteAll(boxes, packets), p)
  {
    hide Route, Verdict;
    assert (packets + [p])[..|packets + [p]| - 1] == packets;
  }

  lemma RoomForOneMore(boxes: map<u32, Mailbox>, packets: seq<Packet>, p: Packet)
    ensures NeverFull(boxes, packets) && Verdict(RouteAll(boxes, packets), p) != MustWait
       <==> NeverFull(boxes, packets + [p])
  {
    hide Route, Verdict, RouteAll;
    var longer := packets + [p];
    assert longer[..|packets|] == packets;
    assert RoomFor(boxes, longer, |packets|) <==> Verdict(RouteAll(boxes, packets), p) != MustWait;
    forall i | 0 <= i < |packets|
      ensures RoomFor(boxes, longer, i) <==> RoomFor(boxes, packets, i)
    {
      assert longer[..i] == packets[..i];
    }
    hide RoomFor;
    assert NeverFull(boxes, longer) ==> forall i :: 0 <= i < |packets| ==> RoomFor(boxes, longer, i);
  }

  /** Routing a list is a separate append per session: an open mailbox gains
      the packets of its own id, in order, and nothing else changes. */
  lemma {:induction false} RoutingKeepsSessionsApart(boxes: map<u32, Mailbox>, packets: seq<Packet>, id: u32)
    requires NeverFull(boxes, packets)
    ensures RouteAll(boxes, packets).Keys == boxes.Keys
    ensures id in boxes ==>
              RouteAll(boxes, packets)[id]
              == (if boxes[id].open then Mailbox(boxes[id].queue + OfSession(packets, id), true) else boxes[id])
  {
    hide NeverFull;
    if packets != [] {
      var init, last := packets[..|packets| - 1], packets[|packets| - 1];
      assert packets == init + [last];
      RouteOneMore(boxes, init, last);
      RoomForOneMore(boxes, init, last);
      RoutingKeepsSessionsApart(boxes, init, id);
    }
  }

  // ---------- Reading ----------

  class ReadTask {
    const secret: Secret
    const manager: SessionManager
    var unread: seq<byte>                // received and not yet read
    var waiting: Option<Packet>          // routed, but its session's queue was full

    ghost function InHand(): seq<Packet>
      reads this
    {
      match waiting
      case Some(packet) => [packet]
      case None => []
    }

    /** What this loop is still going to route. */
    ghost function Ahead(): seq<Packet>
      reads this
    {
      InHand() + Decode(secret, unread)
    }

    constructor (secret: Secret, manager: SessionManager, stream: seq<byte>)
      ensures this.secret == secret && this.manager == manager && unread == stream && waiting == None
      ensures Ahead() == Decode(secret, stream)
    {
      this.secret := secret;
      this.manager := manager;
      this.unread := stream;
      this.waiting := None;
      new;
      assert [] + Decode(secret, stream) == Decode(secret, stream);
    }

    /** `read_exact`: all the bytes asked for, or an error. */
    method ReadExact(n: nat) returns (buffer: Option<seq<byte>>)
      modifies this`unread
      ensures n <= |old(unread)| ==> buffer == Some(old(unread)[..n]) && unread == old(unread)[n..]
      ensures n > |old(unread)| ==> buffer == None && unread == []
    {
      if |unread| < n {
        unread := [];
        return None;
      }
      buffer := Some(unread[..n]);
      unread := unread[n..];
    }

    /** One framed packet, opened where it stands. */
    method OpenInPlace(packet: Packet) returns (clear: Packet)
      requires packet.Sized()
      ensures clear == Open(secret, packet)
    {
      if secret.None? || packet.Clear() {
        return packet;
      }
      var owned := new OwnedPacket(packet);
      var ok := owned.ToDeobfuscated(secret.value);
      clear := owned.Value();
    }

    /** One turn of the loop up to the routing: a packet, a skipped header, or
        the end of the stream. */
    method ReadFrame() returns (ended: bool, packet: Option<Packet>)
      modifies this`unread
      ensures ended <==> NextFrame(old(unread)).Starved?
      ensures ended ==> packet == None
      ensures !ended ==> |unread| < |old(unread)|
      ensures match NextFrame(old(unread))
              case Starved => true
              case Rejected(rest) => packet == None && unread == rest
              case Framed(p, rest) => packet == Some(Open(secret, p)) && unread == rest
    {
      ghost var stream := unread;
      var headerBuffer := ReadExact(HEADER_LENGTH);
      if headerBuffer.None? {
        return true, None;
      }
      var header := Headers.FromBytes(headerBuffer.value);
      if header.Failure? {
        return false, None;
      }
      var bodyBuffer := ReadExact(header.value.length);
      if bodyBuffer.None? {
        return true, None;
      }
      var end := HEADER_LENGTH + header.value.length;
      assert bodyBuffer.value == stream[HEADER_LENGTH..end] && unread == stream[end..];
      var framed := New(header.value, bodyBuffer.value);
      var clear := OpenInPlace(framed.value);
      return false, Some(clear);
    }

    /** One turn of the loop with nothing in hand. */
    method Advance() returns (ended: bool)
      requires waiting == None
      modifies this`unread, this`waiting
      ensures ended ==> old(Ahead()) == [] && waiting == None
      ensures !ended ==> Ahead() == old(Ahead()) && |unread| < |old(unread)|
    {
      hide Decode, NextFrame, Open;
      DecodeStep(secret, unread);
      ghost var before := Decode(secret, unread);
      assert [] + before == before;
      var over, packet := ReadFrame();
      ended := over;
      waiting := packet;
      assert [] + Decode(secret, unread) == Decode(secret, unread);
    }

    /** Hands the waiting packet to its session, unless it still has to wait. */
    method Dispatch() returns (moved: bool)
      requires manager.Valid() && waiting.Some?
      modifies this`waiting, manager.duplexChannels.Values`queue
      ensures manager.Valid()
      ensures moved <==> Verdict(old(manager.Mailboxes()), old(waiting.value)) != MustWait
      ensures moved ==> waiting == None && manager.Mailboxes() == Route(old(manager.Mailboxes()), old(waiting.value))
      ensures !moved ==> waiting == old(waiting) && manager.Mailboxes() == old(manager.Mailboxes())
    {
      hide Verdict, Route, SessionManager.Mailboxes;
      var sent := manager.SendMessageToSession(waiting.value);
      moved := sent != MustWait;
      ghost var boxes := manager.Mailboxes();
      if moved {
        waiting := None;
        assert manager.Mailboxes() == boxes;
      }
    }

    /** The read loop.  `routed` are the packets it disposed of in this poll:
        they and what is still ahead are exactly what was ahead before, and
        every mailbox is as if they had been routed one by one. */
    method Poll() returns (r: Progress, ghost routed: seq<Packet>)
      requires manager.Valid()
      modifies this, manager.duplexChannels.Values`queue
      ensures manager.Valid() && manager.duplexChannels == old(manager.duplexChannels)
      ensures manager.Mailboxes() == RouteAll(old(manager.Mailboxes()), routed)
      ensures NeverFull(old(manager.Mailboxes()), routed)
      ensures r == Pending || r == Ended
      ensures r == Ended ==> routed == old(Ahead()) && waiting == None
      ensures r == Pending ==>
                && routed + Ahead() == old(Ahead())
                && waiting.Some? && Verdict(manager.Mailboxes(), waiting.value) == MustWait
    {
      hide Decode, NextFrame, Open, Route, RouteAll, Verdict, NeverFull;
      routed := [];
      ghost var boxes := manager.Mailboxes();
      ghost var goal := Ahead();
      NothingRouted(boxes);
      assert routed + Ahead() == goal;
      while true
        invariant manager.Valid() && manager.duplexChannels == old(manager.duplexChannels)
        invariant manager.Mailboxes() == RouteAll(boxes, routed)
        invariant NeverFull(boxes, routed)
        invariant routed + Ahead() == goal
        decreases |unread|, if waiting.Some? then 1 else 0
      {
        if waiting.None? {
          var ended := Advance();
          if ended {
            assert routed + [] == routed;
            r := Ended;
            return;
          }
        } else {
          ghost var before := Decode(secret, unread);
          assert [] + before == before;
          ghost var packet := waiting.value;
          RouteOneMore(boxes, routed, packet);
          RoomForOneMore(boxes, routed, packet);
          var moved := Dispatch();
          if !moved {
            r := Pending;
            return;
          }
          assert routed + ([packet] + before) == (routed + [packet]) + before;
          routed := routed + [packet];
        }
      }
    }
  }

  lemma NothingRouted(boxes: map<u32, Mailbox>)
    ensures RouteAll(boxes, []) == boxes && NeverFull(boxes, [])
  {
  }

  // ---------- Writing ----------

  class WriteTask {
    const secret: Secret
    const receiver: Channel
    var wire: seq<byte>                  // everything written so far
    var accepts: nat                     // how many more bytes the socket takes before it fails

    constructor (secret: Secret, receiver: Channel, accepts: nat)
      ensures this.secret == secret && this.receiver == receiver && wire == [] && this.accepts == accepts
    {
      this.secret := secret;
      this.receiver := receiver;
      this.wire := [];
      this.accepts := accepts;
    }

    /** One packet, sealed where it stands; None when that panics. */
    method SealInPlace(packet: Packet) returns (sealed: Attempt<Packet>)
      ensures sealed == Seal(secret, packet)
    {
      if secret.None? || !packet.Clear() {
        return Attempt.Returned(packet);
      }
      var owned := new OwnedPacket(packet);
      var ok := owned.ToObfuscated(secret.value);
      sealed := if ok then Attempt.Returned(owned.Value()) else Attempt.Panicked;
    }

    /** `write_all`: a socket that fails has taken a part of the bytes. */
    method WriteAll(bytes: seq<byte>) returns (ok: bool)
      modifies this`wire, this`accepts
      ensures ok <==> |bytes| <= old(accepts)
      ensures wire == old(wire) + (if ok then bytes else bytes[..old(accepts)])
      ensures accepts == if ok then old(accepts) - |bytes| else 0
    {
      ok := |bytes| <= accepts;
      if ok {
        wire, accepts := wire + bytes, accepts - |bytes|;
      } else {
        wire, accepts := wire + bytes[..accepts], 0;
      }
    }

    /** The write loop: everything queued goes out in order, until the queue is
        empty, a conversion panics or the socket fails, which cuts the bytes
        off; the loop drops its end of the queue when it is over. */
    method Poll() returns (r: Progress)
      requires receiver.Valid()
      modifies this`wire, this`accepts, receiver`queue, receiver`receiverOpen
      ensures receiver.Valid() && receiver.queue == []
      ensures receiver.receiverOpen == (old(receiver.receiverOpen) && r == Pending)
      ensures var emission := Emit(secret, old(receiver.queue));
              if |emission.bytes| <= old(accepts) then
                && wire == old(wire) + emission.bytes && accepts == old(accepts) - |emission.bytes|
                && r == (if emission.panicked then Progress.Panicked
                         else if receiver.sendersOpen then Pending else Ended)
              else wire == old(wire) + emission.bytes[..old(accepts)] && r == Failed
    {
      hide Seal, Emit, Packets.Encoding;
      ghost var all := receiver.queue;
      NothingEmitted(secret);
      ghost var taken: seq<Packet> := [];
      while true
        invariant receiver.Valid() && receiver.receiverOpen == old(receiver.receiverOpen)
        invariant taken + receiver.queue == all
        invariant !Emit(secret, taken).panicked && |Emit(secret, taken).bytes| + accepts == old(accepts)
        invariant wire == old(wire) + Emit(secret, taken).bytes
        decreases |receiver.queue|
      {
        ghost var queue := receiver.queue;
        var received := receiver.Receive();
        match received {
          case SendersGone =>
            assert taken == all;
            receiver.CloseReceiver();
            r := Ended;
            return;
          case QueueEmpty =>
            assert taken == all;
            r := Pending;
            return;
          case Got(packet) =>
            ghost var longer := taken + [packet];
            assert longer + queue[1..] == all;
            EmitOneMore(secret, taken, packet);
            EmissionGrows(secret, longer, queue[1..]);
            var sealed := SealInPlace(packet);
            if sealed.Panicked? {
              PanicEndsEmission(secret, longer, queue[1..]);
              receiver.CloseReceiver();
              r := Progress.Panicked;
              return;
            }
            var bytes := Packets.ToBytes(sealed.value);
            var ok := WriteAll(bytes);
            if !ok {
              CutTwice(Emit(secret, taken).bytes, bytes, Emit(secret, all).bytes, old(accepts));
              receiver.CloseReceiver();
              r := Failed;
              return;
            }
            taken := longer;
        }
      }
    }
  }

  lemma CutTwice(front: seq<byte>, next: seq<byte>, whole: seq<byte>, n: nat)
    requires front + next <= whole && |front| <= n < |front + next|
    ensures whole[..n] == front + next[..n - |front|]
  {
    assert whole[..n] == (front + next)[..n];
  }

  lemma NothingEmitted(k: Secret)
    ensures Emit(k, []) == Emission([], false)
  {
  }
}
