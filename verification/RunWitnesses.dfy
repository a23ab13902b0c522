/** Runs that show why some claims need their conditions: two concurrent calls
    of one session that both return Ok, and a call left waiting for good by a
    read loop that has ended. */
module RunWitnesses {
  import opened Primitives
  import opened Obfuscation
  import opened Packets
  import opened Framing
  import opened ConnectionSystem
  import opened OutboundInvariants
  import opened ConnectionTheorems
  import opened ConnectionStalls
  import Channels
  import Sessions
  import Requests = AccountingRequests
  import Replies = AccountingReplies

  lemma ExecOne(cfg: Config, s: State, steps: seq<Step>, t: State, step: Step, u: State)
    requires Exec(cfg, s, steps) == Some(t) && Apply(cfg, t, step) == Some(u)
    ensures Exec(cfg, s, steps + [step]) == Some(u)
  {
    hide Apply;
    assert (steps + [step])[..|steps + [step]| - 1] == steps;
  }

  /** What one step of call `c` leaves alone. */
  predicate Beside(s: State, t: State, c: nat) {
    && t.alive == s.alive && t.writer == s.writer && t.reader == s.reader && t.accepting == s.accepting
    && t.written == s.written && t.wire == s.wire && t.creators == s.creators
    && t.calls.Keys == s.calls.Keys + {c}
    && forall d :: d in s.calls && d != c ==> d in t.calls && t.calls[d] == s.calls[d]
  }

  /** One more step of one call. */
  lemma Go(cfg: Config, start: State, steps: seq<Step>, s: State, c: nat, step: CallStep, m: Move)
    returns (more: seq<Step>, t: State)
    requires Exec(cfg, start, steps) == Some(s)
    requires c in s.calls && s.calls[c].id in s.sessions && !step.Begin? && m.call.id == s.calls[c].id
    requires CallMove(ViewOf(s), c, s.calls[c], s.sessions[s.calls[c].id], step) == Some(m)
    ensures Exec(cfg, start, more) == Some(t)
    ensures c in t.calls && t.calls[c] == m.call && m.call.id in t.sessions && t.sessions[m.call.id] == m.session
    ensures t.outbound == s.outbound + m.sent && Beside(s, t, c)
  {
    hide CallMove, Exec;
    t := Moved(s, c, m).(clock := s.clock + 1);
    assert Apply(cfg, s, OfCall(c, step)) == Some(t);
    ExecOne(cfg, start, steps, s, OfCall(c, step), t);
    more := steps + [OfCall(c, step)];
  }

  /** The connection is up and nobody holds the session's receiver. */
  predicate Usable(s: State, id: u32) {
    && s.alive && s.writer.Taking? && |s.outbound| < 2
    && id in s.sessions && s.sessions[id].open && s.sessions[id].holder == None
  }

  /** A new call gets past the completion check. */
  lemma CallPasses(cfg: Config, start: State, steps: seq<Step>, s: State, c: nat, id: u32,
                   request: Requests.AccountingRequest)
    returns (more: seq<Step>, t: State)
    requires Exec(cfg, start, steps) == Some(s)
    requires Usable(s, id) && c !in s.calls && !s.sessions[id].complete
    ensures Exec(cfg, start, more) == Some(t)
    ensures Usable(t, id) && t.sessions[id] == s.sessions[id] && t.outbound == s.outbound && Beside(s, t, c)
    ensures c in t.calls && t.calls[c].id == id && t.calls[c].request == request && t.calls[c].phase == Passed
  {
    hide CallMove, Exec;
    var begin := OfCall(c, Begin(id, request));
    var call := NewCall(id, request, s.clock);
    var s1 := s.(calls := s.calls[c := call], clock := s.clock + 1);
    ExecOne(cfg, start, steps, s, begin, s1);
    more, t := BegunCallPasses(cfg, start, steps + [begin], s1, c, id);
  }

  lemma BegunCallPasses(cfg: Config, start: State, steps: seq<Step>, s: State, c: nat, id: u32)
    returns (more: seq<Step>, t: State)
    requires Exec(cfg, start, steps) == Some(s)
    requires Usable(s, id) && c in s.calls && s.calls[c].id == id && s.calls[c].phase == Begun
    requires !s.sessions[id].complete
    ensures Exec(cfg, start, more) == Some(t)
    ensures Usable(t, id) && t.sessions[id] == s.sessions[id] && t.outbound == s.outbound && Beside(s, t, c)
    ensures c in t.calls && t.calls[c].id == id && t.calls[c].request == s.calls[c].request
    ensures t.calls[c].phase == Passed
  {
    hide Exec, Received, Sessions.RequestPacket;
    var session, c1 := s.sessions[id], s.calls[c];
    var c2 := c1.(phase := SenderOpen);
    var steps2, s2 := Go(cfg, start, steps, s, c, ProbeSender, Move(c2, session, []));
    var c3 := c2.(phase := ReceiverOpen, probedAt := Some(s2.clock));
    var steps3, s3 := Go(cfg, start, steps2, s2, c, ProbeReceiver, Move(c3, session, []));
    var c4 := c3.(phase := Passed, passed := true);
    more, t := Go(cfg, start, steps3, s3, c, ReadFlag, Move(c4, session, []));
  }

  /** A call that is past the check queues its packet. */
  lemma CallSends(cfg: Config, start: State, steps: seq<Step>, s: State, c: nat, id: u32)
    returns (more: seq<Step>, t: State)
    requires Exec(cfg, start, steps) == Some(s)
    requires Usable(s, id) && c in s.calls && s.calls[c].id == id && s.calls[c].phase == Passed
    ensures Exec(cfg, start, more) == Some(t)
    ensures Beside(s, t, c) && id in t.sessions && t.sessions[id] == Drawn(s.sessions[id])
    ensures t.outbound == s.outbound + [Sessions.RequestPacket(id, s.sessions[id].nextSeq, s.calls[c].request)]
    ensures c in t.calls && t.calls[c].id == id && t.calls[c].phase == Sent
    ensures t.calls[c].number == Some(s.sessions[id].numbered)
  {
    hide Sessions.RequestPacket, Received, Exec;
    var x0, c0 := s.sessions[id], s.calls[c];
    var p := Sessions.RequestPacket(id, x0.nextSeq, c0.request);
    var c1 := c0.(phase := Ready(p), number := Some(x0.numbered));
    var steps1, s1 := Go(cfg, start, steps, s, c, TakeNumber, Move(c1, Drawn(x0), []));
    var c2 := c1.(phase := Sent);
    more, t := Go(cfg, start, steps1, s1, c, Send, Move(c2, Drawn(x0), [p]));
  }

  /** A call that is past the check and finds a reply queued returns Ok, no
      matter that the session may have been completed in the meantime. */
  lemma CallReturns(cfg: Config, start: State, steps: seq<Step>, s: State, c: nat, id: u32,
                    reply: Replies.AccountingReply)
    returns (more: seq<Step>, t: State)
    requires Exec(cfg, start, steps) == Some(s)
    requires Usable(s, id) && c in s.calls && s.calls[c].id == id && s.calls[c].phase == Passed
    requires s.sessions[id].queue != [] && Replies.Decoding(s.sessions[id].queue[0].body) == Success(reply)
    ensures Exec(cfg, start, more) == Some(t)
    ensures t.alive && t.writer.Taking? && |t.outbound| == |s.outbound| + 1 && Beside(s, t, c)
    ensures id in t.sessions && t.sessions[id].open && t.sessions[id].holder == None
    ensures t.sessions[id].queue == s.sessions[id].queue[1..]
    ensures c in t.calls && t.calls[c].id == id && t.calls[c].phase == ReturnedOk(reply)
  {
    hide Sessions.RequestPacket, Replies.Decoding, Exec;
    var steps1, s1 := CallSends(cfg, start, steps, s, c, id);
    more, t := SentCallReturns(cfg, start, steps1, s1, c, id, reply);
  }

  lemma SentCallReturns(cfg: Config, start: State, steps: seq<Step>, s: State, c: nat, id: u32,
                        reply: Replies.AccountingReply)
    returns (more: seq<Step>, t: State)
    requires Exec(cfg, start, steps) == Some(s)
    requires id in s.sessions && s.sessions[id].holder == None
    requires c in s.calls && s.calls[c].id == id && s.calls[c].phase == Sent
    requires s.sessions[id].queue != [] && Replies.Decoding(s.sessions[id].queue[0].body) == Success(reply)
    ensures Exec(cfg, start, more) == Some(t)
    ensures t.outbound == s.outbound && Beside(s, t, c)
    ensures id in t.sessions && t.sessions[id].open == s.sessions[id].open && t.sessions[id].holder == None
    ensures t.sessions[id].queue == s.sessions[id].queue[1..]
    ensures c in t.calls && t.calls[c].id == id && t.calls[c].phase == ReturnedOk(reply)
  {
    hide Sessions.RequestPacket, Replies.Decoding, Exec;
    var x2, c2 := s.sessions[id], s.calls[c];
    var x3 := x2.(holder := Some(c));
    var c3 := c2.(phase := Holding, lockedAt := Some(s.clock));
    var steps3, s3 := Go(cfg, start, steps, s, c, Acquire, Move(c3, x3, []));
    more, t := HoldingCallReturns(cfg, start, steps3, s3, c, id, reply);
  }

  lemma HoldingCallReturns(cfg: Config, start: State, steps: seq<Step>, s: State, c: nat, id: u32,
                           reply: Replies.AccountingReply)
    returns (more: seq<Step>, t: State)
    requires Exec(cfg, start, steps) == Some(s)
    requires id in s.sessions && c in s.calls && s.calls[c].id == id && s.calls[c].phase == Holding
    requires s.sessions[id].queue != [] && Replies.Decoding(s.sessions[id].queue[0].body) == Success(reply)
    ensures Exec(cfg, start, more) == Some(t)
    ensures t.outbound == s.outbound && Beside(s, t, c)
    ensures id in t.sessions && t.sessions[id].open == s.sessions[id].open && t.sessions[id].holder == None
    ensures t.sessions[id].queue == s.sessions[id].queue[1..]
    ensures c in t.calls && t.calls[c].id == id && t.calls[c].phase == ReturnedOk(reply)
  {
    hide Sessions.RequestPacket, Replies.Decoding, Exec;
    var x3, c3 := s.sessions[id], s.calls[c];
    var x4 := x3.(queue := x3.queue[1..], consumed := x3.consumed + [x3.queue[0]]);
    var c4 := c3.(took := Some(|x3.consumed|), phase := Parsed(reply));
    var steps4, s4 := Go(cfg, start, steps, s, c, Receive, Move(c4, x4, []));
    more, t := ParsedCallReturns(cfg, start, steps4, s4, c, id, reply);
  }

  lemma ParsedCallReturns(cfg: Config, start: State, steps: seq<Step>, s: State, c: nat, id: u32,
                          reply: Replies.AccountingReply)
    returns (more: seq<Step>, t: State)
    requires Exec(cfg, start, steps) == Some(s)
    requires id in s.sessions && c in s.calls && s.calls[c].id == id && s.calls[c].phase == Parsed(reply)
    ensures Exec(cfg, start, more) == Some(t)
    ensures t.outbound == s.outbound && Beside(s, t, c)
    ensures id in t.sessions && t.sessions[id].open == s.sessions[id].open && t.sessions[id].holder == None
    ensures t.sessions[id].queue == s.sessions[id].queue
    ensures c in t.calls && t.calls[c].id == id && t.calls[c].phase == ReturnedOk(reply)
  {
    hide Sessions.RequestPacket, Received, Exec;
    var x4, c4 := s.sessions[id], s.calls[c];
    var x5 := x4.(complete := true);
    var c5 := c4.(phase := Completed(reply));
    var steps5, s5 := Go(cfg, start, steps, s, c, Complete, Move(c5, x5, []));
    var x6 := x5.(holder := None);
    var c6 := c5.(phase := ReturnedOk(reply), endedAt := Some(s5.clock));
    more, t := Go(cfg, start, steps5, s5, c, Return, Move(c6, x6, []));
  }

  // ---------- Two successes ----------

  /** The read loop takes the next frame of the stream to its session. */
  lemma PacketArrives(cfg: Config, start: State, steps: seq<Step>, s: State, p: Packet, rest: seq<byte>)
    returns (more: seq<Step>, t: State)
    requires Exec(cfg, start, steps) == Some(s)
    requires s.reader == Reading && p.Sized() && s.unread == Packets.Encoding(p) + rest
    requires p.header.sessionId in s.sessions
    requires var x := s.sessions[p.header.sessionId]; x.open && |x.queue| < Channels.CAPACITY
    ensures Exec(cfg, start, more) == Some(t)
    ensures var q, id, x := Open(cfg.secret, p), p.header.sessionId, s.sessions[p.header.sessionId];
            t == s.(unread := rest, routed := s.routed + [q], clock := s.clock + 3,
                    sessions := s.sessions[id := x.(queue := x.queue + [q])])
  {
    hide Exec, NextFrame, Packets.Encoding, Open;
    var q, id, x := Open(cfg.secret, p), p.header.sessionId, s.sessions[p.header.sessionId];
    var steps2, s2 := PacketIsInHand(cfg, start, steps, s, p, rest);
    t := s2.(reader := Reading, routed := s.routed + [q], clock := s.clock + 3,
             sessions := s.sessions[id := x.(queue := x.queue + [q])]);
    ExecOne(cfg, start, steps2, s2, OfReader(Deliver), t);
    more := steps2 + [OfReader(Deliver)];
  }

  /** The read loop has the next frame of the stream ready to be delivered. */
  lemma PacketIsInHand(cfg: Config, start: State, steps: seq<Step>, s: State, p: Packet, rest: seq<byte>)
    returns (more: seq<Step>, t: State)
    requires Exec(cfg, start, steps) == Some(s)
    requires s.reader == Reading && p.Sized() && s.unread == Packets.Encoding(p) + rest
    requires p.header.sessionId in s.sessions
    ensures Exec(cfg, start, more) == Some(t)
    ensures t == s.(unread := rest, reader := Delivering(Open(cfg.secret, p)), clock := s.clock + 2)
  {
    hide Exec, NextFrame, Packets.Encoding, Open;
    FrameOfEncoding(p, rest);
    var q := Open(cfg.secret, p);
    var s1 := s.(unread := rest, reader := Routing(q), clock := s.clock + 1);
    ExecOne(cfg, start, steps, s, OfReader(ReadFrame), s1);
    var steps1 := steps + [OfReader(ReadFrame)];
    t := s1.(reader := Delivering(q), clock := s.clock + 2);
    ExecOne(cfg, start, steps1, s1, OfReader(LookUp), t);
    more := steps1 + [OfReader(LookUp)];
  }

  /** A session is created on a fresh connection. */
  lemma SessionOpens(cfg: Config, id: u32) returns (steps: seq<Step>, t: State)
    ensures Run(cfg, steps) == Some(t)
    ensures t.unread == cfg.stream && t.reader == Reading && t.accepting && t.calls == map[] && t.outbound == []
    ensures Usable(t, id) && t.sessions[id] == NewSession(0, 0) && t.written == [] && t.wire == []
    ensures t.creators == map[0 := Registered(id, 1)]
  {
    hide Exec;
    var s0 := Initial(cfg);
    assert Exec(cfg, s0, []) == Some(s0) by {
      NoSteps(cfg, s0);
    }
    var s1 := s0.(creators := s0.creators[0 := Asking], clock := 1);
    ExecOne(cfg, s0, [], s0, OfCreator(0, Ask), s1);
    var s2 := s1.(creators := s1.creators[0 := Allowed(1)], clock := 2);
    var steps1 := [] + [OfCreator(0, Ask)];
    ExecOne(cfg, s0, steps1, s1, OfCreator(0, CheckFlag), s2);
    var steps2 := steps1 + [OfCreator(0, CheckFlag)];
    t := s2.(creators := s2.creators[0 := Registered(id, 1)], clock := 3,
             sessions := s2.sessions[id := NewSession(0, 0)]);
    ExecOne(cfg, s0, steps2, s2, OfCreator(0, Register(id)), t);
    steps := steps2 + [OfCreator(0, Register(id))];
  }

  lemma NoSteps(cfg: Config, s: State)
    ensures Exec(cfg, s, []) == Some(s)
  {
  }

  predicate BothReturnOk(s: State, c: nat, d: nat, reply: Replies.AccountingReply) {
    && c != d && c in s.calls && d in s.calls && s.calls[c].id == s.calls[d].id
    && s.calls[c].phase == ReturnedOk(reply) && s.calls[d].phase == ReturnedOk(reply)
  }

  /** With or without a key, for any session id, any two requests and any reply
      that the peer sends twice, some schedule lets two concurrent calls of the
      session both return Ok, although the first of them completes it. */
  lemma TwoCallsMayBothSucceed(k: Secret, id: u32, request: Requests.AccountingRequest,
                               other: Requests.AccountingRequest, reply: Replies.AccountingReply)
    requires reply.WithinBounds()
    ensures exists stream: seq<byte>, steps: seq<Step> ::
              var cfg := Config(k, stream);
              Run(cfg, steps).Some? && BothReturnOk(Run(cfg, steps).value, 0, 1, reply)
  {
    hide Exec, Replies.Decoding, Packets.Encoding, Open, Seal;
    var p := Sessions.ReplyPacket(id, 2, reply);
    var e := Packets.Encoding(p);
    var cfg := Config(k, e + e);
    Replies.EncodeThenDecode(reply, []);
    assert p.body + [] == p.body;
    assert p.Sized();
    OpenSealed(k, p);
    var start := Initial(cfg);
    var steps0, s0 := SessionOpens(cfg, id);
    var steps1, s1 := PacketArrives(cfg, start, steps0, s0, p, e);
    assert e == e + [];
    var steps2, s2 := PacketArrives(cfg, start, steps1, s1, p, []);
    var steps3, s3 := CallPasses(cfg, start, steps2, s2, 0, id, request);
    var steps4, s4 := CallPasses(cfg, start, steps3, s3, 1, id, other);
    var steps5, s5 := CallReturns(cfg, start, steps4, s4, 0, id, reply);
    var steps6, s6 := CallReturns(cfg, start, steps5, s5, 1, id, reply);
    assert Run(cfg, steps6).Some? && BothReturnOk(Run(cfg, steps6).value, 0, 1, reply);
  }

  // ---------- An oversized request ----------

  /** A first request is queued on a fresh connection. */
  lemma RequestIsQueued(cfg: Config, id: u32, request: Requests.AccountingRequest)
    returns (steps: seq<Step>, t: State)
    ensures Run(cfg, steps) == Some(t)
    ensures t.outbound == [Sessions.RequestPacket(id, 1, request)]
    ensures t.writer.Taking? && t.written == [] && t.wire == [] && t.submitted == t.outbound
  {
    hide Exec, Sessions.RequestPacket, Decode;
    var start := Initial(cfg);
    var steps0, s0 := SessionOpens(cfg, id);
    var steps1, s1 := CallPasses(cfg, start, steps0, s0, 0, id, request);
    steps, t := CallSends(cfg, start, steps1, s1, 0, id);
    PeerSeesTheQueue(cfg, steps);
    assert [] + t.outbound == t.outbound;
  }

  /** The write loop has panicked on this, the first request of all. */
  predicate PanickedOn(s: State, p: Packet) {
    s.writer.WriterPanicked? && s.written == [] && s.submitted == [p]
  }

  /** With a key, whatever it is and whatever the peer has to say, some run
      panics on a request if and only if the request does not fit. */
  lemma OversizedRequestPanics(cipher: Cipher, stream: seq<byte>, id: u32, request: Requests.AccountingRequest)
    ensures var cfg, p := Config(Some(cipher), stream), Sessions.RequestPacket(id, 1, request);
            !Fits(request) <==> exists steps :: Run(cfg, steps).Some? && PanickedOn(Run(cfg, steps).value, p)
  {
    hide Exec, Sessions.RequestPacket, Fits, Seal, Decode;
    var cfg, p := Config(Some(cipher), stream), Sessions.RequestPacket(id, 1, request);
    RequestPacketIsSized(id, 1, request, cfg.secret);
    if steps :| Run(cfg, steps).Some? && PanickedOn(Run(cfg, steps).value, p) {
      OnlyUnsizedPacketsPanic(cfg, steps);
    }
    if !Fits(request) {
      var steps, s := RequestIsQueued(cfg, id, request);
      var t := s.(outbound := [], writer := WriterPanicked, clock := s.clock + 1);
      ExecOne(cfg, Initial(cfg), steps, s, OfWriter(Take), t);
      var more := steps + [OfWriter(Take)];
      assert Run(cfg, more).Some? && PanickedOn(Run(cfg, more).value, p);
    }
  }

  lemma PacketIsWritten(cfg: Config, steps: seq<Step>, s: State, p: Packet) returns (more: seq<Step>)
    requires cfg.secret == None && Run(cfg, steps) == Some(s)
    requires s.writer.Taking? && s.outbound == [p] && s.written == []
    ensures Run(cfg, more).Some? && Run(cfg, more).value.written == [p]
  {
    hide Exec, Packets.Encoding;
    var t := s.(writer := Writing(p), outbound := s.outbound[1..], clock := s.clock + 1);
    ExecOne(cfg, Initial(cfg), steps, s, OfWriter(Take), t);
    more := steps + [OfWriter(Take)];
    var u := t.(writer := Taking, wire := t.wire + Packets.Encoding(p), written := t.written + [p],
                clock := t.clock + 1);
    ExecOne(cfg, Initial(cfg), more, t, OfWriter(Write), u);
    more := more + [OfWriter(Write)];
  }

  /** This packet, the first of all, is written, and the peer does not get it
      as it was. */
  predicate LostOnTheWire(s: State, p: Packet) {
    s.written == [p] && Decode(None, s.wire) != [p]
  }

  /** Without a key, some run writes a request that the peer cannot read back
      if and only if the request does not fit. */
  lemma OversizedRequestIsLost(stream: seq<byte>, id: u32, request: Requests.AccountingRequest)
    ensures var cfg, p := Config(None, stream), Sessions.RequestPacket(id, 1, request);
            !Fits(request) <==> exists steps :: Run(cfg, steps).Some? && LostOnTheWire(Run(cfg, steps).value, p)
  {
    hide Exec, Sessions.RequestPacket, Fits, Decode, Packets.Encoding;
    var cfg, p := Config(None, stream), Sessions.RequestPacket(id, 1, request);
    RequestPacketIsSized(id, 1, request, None);
    if steps :| Run(cfg, steps).Some? && LostOnTheWire(Run(cfg, steps).value, p) {
      PeerSeesTheQueue(cfg, steps);
    }
    if !Fits(request) {
      var steps, s := RequestIsQueued(cfg, id, request);
      var more := PacketIsWritten(cfg, steps, s, p);
      PeerSeesTheQueue(cfg, more);
      assert !AllSized([p]) by {
        assert [p][0] == p;
      }
      assert Run(cfg, more).Some? && LostOnTheWire(Run(cfg, more).value, p);
    }
  }

  // ---------- A read loop held up ----------

  function Copies(e: seq<byte>, n: nat): seq<byte> {
    if n == 0 then [] else e + Copies(e, n - 1)
  }

  /** As many packets as there is room for arrive one after the other. */
  lemma {:induction false} PacketsArrive(cfg: Config, start: State, steps: seq<Step>, s: State, p: Packet, n: nat,
                                         rest: seq<byte>)
    returns (more: seq<Step>, t: State)
    requires Exec(cfg, start, steps) == Some(s)
    requires s.reader == Reading && p.Sized() && s.unread == Copies(Packets.Encoding(p), n) + rest
    requires p.header.sessionId in s.sessions
    requires var x := s.sessions[p.header.sessionId]; x.open && |x.queue| + n <= Channels.CAPACITY
    ensures Exec(cfg, start, more) == Some(t)
    ensures t.reader == Reading && t.unread == rest
    ensures var id := p.header.sessionId;
            && id in t.sessions && t.sessions[id].open
            && |t.sessions[id].queue| == |s.sessions[id].queue| + n
    decreases n
  {
    hide Exec, Open, Packets.Encoding;
    if n == 0 {
      more, t := steps, s;
    } else {
      var e := Packets.Encoding(p);
      var after := Copies(e, n - 1) + rest;
      assert s.unread == e + after;
      var steps1, s1 := PacketArrives(cfg, start, steps, s, p, after);
      more, t := PacketsArrive(cfg, start, steps1, s1, p, n - 1, rest);
    }
  }

  /** With or without a key, any packet of the announced length that the peer
      sends once more than a queue holds can hold up the read loop. */
  lemma ReadLoopMayBeHeldUp(k: Secret, p: Packet)
    requires p.Sized()
    ensures exists stream: seq<byte>, steps: seq<Step> ::
              var cfg := Config(k, stream);
              && Run(cfg, steps).Some? && HeldUp(Run(cfg, steps).value, p.header.sessionId)
              && |Run(cfg, steps).value.sessions[p.header.sessionId].queue| == 32
  {
    hide Exec, Open, Packets.Encoding;
    var e := Packets.Encoding(p);
    var cfg := Config(k, Copies(e, Channels.CAPACITY) + e);
    var start := Initial(cfg);
    var steps0, s0 := SessionOpens(cfg, p.header.sessionId);
    var steps1, s1 := PacketsArrive(cfg, start, steps0, s0, p, Channels.CAPACITY, e);
    assert e == e + [];
    var steps2, s2 := PacketIsInHand(cfg, start, steps1, s1, p, []);
    assert Run(cfg, steps2).Some? && HeldUp(Run(cfg, steps2).value, p.header.sessionId);
  }

  // ---------- A stranded call ----------

  /** A call on the session waits with the receiver locked, nothing is queued
      for it, the read loop is over, and the connection is otherwise up. */
  predicate Stranded(s: State, id: u32, c: nat) {
    && s.alive && s.accepting && Quiet(s, id)
    && c in s.calls && s.calls[c].id == id && s.calls[c].phase == Holding
  }

  /** A call that is past the check gets as far as waiting for its reply. */
  lemma CallWaits(cfg: Config, start: State, steps: seq<Step>, s: State, c: nat, id: u32)
    returns (more: seq<Step>, t: State)
    requires Exec(cfg, start, steps) == Some(s)
    requires Usable(s, id) && c in s.calls && s.calls[c].id == id && s.calls[c].phase == Passed
    ensures Exec(cfg, start, more) == Some(t)
    ensures Beside(s, t, c)
    ensures id in t.sessions && t.sessions[id] == Drawn(s.sessions[id]).(holder := Some(c))
    ensures t.outbound == s.outbound + [Sessions.RequestPacket(id, s.sessions[id].nextSeq, s.calls[c].request)]
    ensures c in t.calls && t.calls[c].id == id && t.calls[c].phase == Holding
    ensures t.calls[c].number == Some(s.sessions[id].numbered)
  {
    hide Sessions.RequestPacket, Received, Exec;
    var steps1, s1 := CallSends(cfg, start, steps, s, c, id);
    var x1, c1 := s1.sessions[id], s1.calls[c];
    var x2, c2 := x1.(holder := Some(c)), c1.(phase := Holding, lockedAt := Some(s1.clock));
    more, t := Go(cfg, start, steps1, s1, c, Acquire, Move(c2, x2, []));
  }

  /** Whatever the key and whatever the peer has to say: on any session id any
      request can end up waiting for a reply that will not come. */
  lemma CallsMayBeStranded(cfg: Config, id: u32, request: Requests.AccountingRequest)
    ensures exists steps: seq<Step> :: Run(cfg, steps).Some? && Stranded(Run(cfg, steps).value, id, 0)
  {
    hide Exec;
    var start := Initial(cfg);
    var steps0, s0 := SessionOpens(cfg, id);
    var steps1, s1 := CallPasses(cfg, start, steps0, s0, 0, id, request);
    var steps2, s2 := CallWaits(cfg, start, steps1, s1, 0, id);
    var s3 := s2.(reader := ReaderEnded, clock := s2.clock + 1);
    assert Apply(cfg, s2, OfReader(ReadFails)) == Some(s3);
    var steps3 := steps2 + [OfReader(ReadFails)];
    ExecOne(cfg, start, steps2, s2, OfReader(ReadFails), s3);
    assert Run(cfg, steps3).Some? && Stranded(Run(cfg, steps3).value, id, 0);
  }
}
