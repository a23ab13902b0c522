/** What every step of a connection keeps. */
module ConnectionInvariants {
  import opened Primitives
  import opened Packets
  import opened Framing
  import opened ConnectionSystem
  import opened CallInvariants
  import opened SessionManagers
  import Replies = AccountingReplies
  import Channels
  import Sessions

  // ---------- Routing ----------

  function InHand(r: Reader): seq<Packet> {
    match r
    case Routing(packet) => [packet]
    case Delivering(packet) => [packet]
    case _ => []
  }

  /** What a session has received and still has queued is what was routed to
      its id since it was registered; after it is dropped its queue is gone. */
  predicate SessionRouted(session: Session, id: u32, routed: seq<Packet>) {
    && session.since <= |routed|
    && |session.queue| <= Channels.CAPACITY
    && var mine := OfSession(routed[session.since..], id);
       if session.open then session.consumed + session.queue == mine
       else session.queue == [] && session.consumed <= mine
  }

  predicate RoutingOk(cfg: Config, s: State) {
    && s.routed + InHand(s.reader) + Decode(cfg.secret, s.unread) == Decode(cfg.secret, cfg.stream)
    && (s.reader.Delivering? ==> s.reader.packet.header.sessionId in s.sessions)
    && forall id :: id in s.sessions ==> SessionRouted(s.sessions[id], id, s.routed)
  }

  lemma RoutedGrows(session: Session, id: u32, routed: seq<Packet>, p: Packet)
    requires SessionRouted(session, id, routed)
    ensures OfSession((routed + [p])[session.since..], id)
         == OfSession(routed[session.since..], id) + (if p.header.sessionId == id then [p] else [])
  {
    var was := routed[session.since..];
    assert (routed + [p])[session.since..] == was + [p];
    assert (was + [p])[..|was + [p]| - 1] == was;
  }

  /** One more packet disposed of: a session whose contents grow by it exactly
      when it is its own stays in step. */
  lemma RoutedToSession(session: Session, id: u32, routed: seq<Packet>, p: Packet, after: Session)
    requires SessionRouted(session, id, routed)
    requires after == if session.open && p.header.sessionId == id
                      then session.(queue := session.queue + [p]) else session
    requires |after.queue| <= Channels.CAPACITY
    ensures SessionRouted(after, id, routed + [p])
  {
    hide OfSession;
    RoutedGrows(session, id, routed, p);
    if session.open && p.header.sessionId == id {
      assert session.consumed + (session.queue + [p]) == (session.consumed + session.queue) + [p];
    }
  }

  /** Disposing of the packet in hand gives it to its session, if that is
      registered and open, and to nobody else. */
  lemma Disposal(cfg: Config, s: State, step: ReaderStep, t: State)
    requires ReaderApply(cfg, s, step) == Some(t) && t.routed != s.routed
    ensures InHand(s.reader) == [s.reader.packet] && InHand(t.reader) == []
    ensures t.reader.Reading? && t.unread == s.unread && t.routed == s.routed + [s.reader.packet]
    ensures t.sessions.Keys == s.sessions.Keys
    ensures forall id :: id in s.sessions ==>
              var p, session := s.reader.packet, s.sessions[id];
              && t.sessions[id] == (if session.open && p.header.sessionId == id
                                    then session.(queue := session.queue + [p]) else session)
              && (|session.queue| <= Channels.CAPACITY ==> |t.sessions[id].queue| <= Channels.CAPACITY)
  {
    hide NextFrame, Open;
  }

  lemma DisposalKeepsRouting(cfg: Config, s: State, step: ReaderStep, t: State)
    requires RoutingOk(cfg, s) && ReaderApply(cfg, s, step) == Some(t) && t.routed != s.routed
    ensures RoutingOk(cfg, t)
  {
    hide ReaderApply, OfSession, SessionRouted, Decode;
    Disposal(cfg, s, step, t);
    Regrouped(s.routed + [s.reader.packet], [], Decode(cfg.secret, s.unread));
    forall id | id in t.sessions
      ensures SessionRouted(t.sessions[id], id, t.routed)
    {
      SessionBound(s.sessions[id], id, s.routed);
      RoutedToSession(s.sessions[id], id, s.routed, s.reader.packet, t.sessions[id]);
    }
  }

  lemma SessionBound(session: Session, id: u32, routed: seq<Packet>)
    requires SessionRouted(session, id, routed)
    ensures |session.queue| <= Channels.CAPACITY
  {
  }

  lemma Regrouped(a: seq<Packet>, b: seq<Packet>, c: seq<Packet>)
    ensures a + [] + (b + c) == a + b + c && a + [] + c == a + c
  {
  }

  lemma ReadFrameKeepsRouting(cfg: Config, s: State, t: State)
    requires RoutingOk(cfg, s) && ReaderApply(cfg, s, ReadFrame) == Some(t)
    ensures RoutingOk(cfg, t)
  {
    hide NextFrame, Open, OfSession, SessionRouted, Decode;
    DecodeStep(cfg.secret, s.unread);
    Regrouped(s.routed, InHand(t.reader), Decode(cfg.secret, t.unread));
  }

  lemma ReaderKeepsRouting(cfg: Config, s: State, step: ReaderStep, t: State)
    requires RoutingOk(cfg, s) && ReaderApply(cfg, s, step) == Some(t)
    ensures RoutingOk(cfg, t)
  {
    hide NextFrame, Open, OfSession, SessionRouted, Decode;
    if step.ReadFrame? {
      ReadFrameKeepsRouting(cfg, s, t);
    } else if t.routed != s.routed {
      DisposalKeepsRouting(cfg, s, step, t);
    }
  }

  // ---------- What a call may do to a session ----------

  /** A call moves packets from the queue to those received, in order, and may
      complete the session; nothing else about it changes hands. */
  predicate SessionAdvanced(was: Session, now: Session) {
    && now.open == was.open && now.owner == was.owner && now.since == was.since
    && now.consumed + now.queue == was.consumed + was.queue
    && was.consumed <= now.consumed
    && (was.complete ==> now.complete)
    && now.marked == was.marked
  }

  lemma MovesAdvanceSessions(v: View, c: nat, call: Call, session: Session, step: CallStep, m: Move)
    requires CallMove(v, c, call, session, step) == Some(m)
    ensures SessionAdvanced(session, m.session)
  {
    hide Replies.Decoding, Sessions.RequestPacket;
    if step.Receive? && session.queue != [] {
      assert session.queue == [session.queue[0]] + session.queue[1..];
    }
  }

  lemma CallsAdvanceSessions(s: State, c: nat, step: CallStep, t: State)
    requires CallApply(s, c, step) == Some(t)
    ensures t.sessions.Keys == s.sessions.Keys
    ensures forall id :: id in s.sessions ==> SessionAdvanced(s.sessions[id], t.sessions[id])
    ensures t == s.(sessions := t.sessions, calls := t.calls, outbound := t.outbound, submitted := t.submitted)
  {
    hide CallMove;
    if !step.Begin? {
      var call := s.calls[c];
      var session := s.sessions[call.id];
      var m := CallMove(ViewOf(s), c, call, session, step).value;
      MovesAdvanceSessions(ViewOf(s), c, call, session, step, m);
      MoveKeepsId(ViewOf(s), c, call, session, step, m);
    }
  }

  lemma AdvancedStaysRouted(was: Session, now: Session, id: u32, routed: seq<Packet>)
    requires SessionRouted(was, id, routed) && SessionAdvanced(was, now)
    ensures SessionRouted(now, id, routed)
  {
    hide OfSession;
    assert |now.consumed| + |now.queue| == |was.consumed| + |was.queue|;
    if !was.open {
      assert was.consumed + was.queue == was.consumed;
      assert now.queue == [] && now.consumed == was.consumed;
    }
  }

  lemma CallsKeepRouting(cfg: Config, s: State, c: nat, step: CallStep, t: State)
    requires RoutingOk(cfg, s) && CallApply(s, c, step) == Some(t)
    ensures RoutingOk(cfg, t)
  {
    hide CallApply, OfSession, SessionRouted, SessionAdvanced, Decode;
    CallsAdvanceSessions(s, c, step, t);
    forall id | id in t.sessions
      ensures SessionRouted(t.sessions[id], id, t.routed)
    {
      AdvancedStaysRouted(s.sessions[id], t.sessions[id], id, s.routed);
    }
  }

  lemma CreatorsKeepRouting(cfg: Config, s: State, k: nat, step: CreatorStep, t: State)
    requires RoutingOk(cfg, s) && CreatorApply(s, k, step) == Some(t)
    ensures RoutingOk(cfg, t)
  {
    hide Decode;
    forall id | id in t.sessions
      ensures SessionRouted(t.sessions[id], id, t.routed)
    {
      if id !in s.sessions {
        assert s.routed[|s.routed|..] == [];
      }
    }
  }

  lemma OwnersKeepRouting(cfg: Config, s: State, step: OwnerStep, t: State)
    requires RoutingOk(cfg, s) && OwnerApply(s, step) == Some(t)
    ensures RoutingOk(cfg, t)
  {
    hide Decode, OfSession;
  }

  lemma WritersKeepRouting(cfg: Config, s: State, step: WriterStep, t: State)
    requires RoutingOk(cfg, s) && WriterApply(cfg, s, step) == Some(t)
    ensures RoutingOk(cfg, t)
  {
    hide Decode, OfSession, SessionRouted, Seal;
  }

  // ---------- What each task leaves alone ----------

  /** What happens to a session outside its calls: its queue changes, it is
      marked complete, a number is drawn, or it is dropped. */
  predicate CallsUndisturbed(was: Session, now: Session) {
    && now.holder == was.holder && now.consumed == was.consumed
    && now.owner == was.owner && now.since == was.since
    && MarkKept(was, now) && (was.complete ==> now.complete)
    && was.numbered <= now.numbered && (CounterOk(was) ==> CounterOk(now))
    && (!was.open ==> !now.open)
  }

  predicate Undisturbed(was: map<u32, Session>, now: map<u32, Session>) {
    now.Keys == was.Keys && forall id :: id in was ==> CallsUndisturbed(was[id], now[id])
  }

  lemma DeliverFrame(cfg: Config, s: State, t: State)
    requires ReaderApply(cfg, s, Deliver) == Some(t)
    ensures t == s.(reader := Reading, routed := s.routed + [s.reader.packet], sessions := t.sessions)
    ensures Undisturbed(s.sessions, t.sessions)
    ensures forall id :: id in s.sessions ==> t.sessions[id].marked == s.sessions[id].marked
  {
    hide Accept;
    OnlyQueueGrows(s.sessions[s.reader.packet.header.sessionId], s.reader.packet);
  }

  lemma ReaderFrame(cfg: Config, s: State, step: ReaderStep, t: State)
    requires ReaderApply(cfg, s, step) == Some(t)
    ensures !s.reader.ReaderEnded?
    ensures t == s.(unread := t.unread, reader := t.reader, routed := t.routed, sessions := t.sessions)
    ensures s.routed <= t.routed
    ensures Undisturbed(s.sessions, t.sessions)
    ensures forall id :: id in s.sessions ==> t.sessions[id].marked == s.sessions[id].marked
  {
    hide NextFrame, Open, Accept, Undisturbed;
    if step.Deliver? {
      DeliverFrame(cfg, s, t);
    } else {
      SameSessions(s.sessions);
    }
  }

  lemma SameSessions(sessions: map<u32, Session>)
    ensures Undisturbed(sessions, sessions)
  {
  }

  lemma OnlyQueueGrows(session: Session, packet: Packet)
    ensures Accept(session, packet).Some? ==>
              var after := Accept(session, packet).value;
              after == session.(queue := after.queue)
  {
  }

  lemma WriterFrame(cfg: Config, s: State, step: WriterStep, t: State)
    requires WriterApply(cfg, s, step) == Some(t)
    ensures s.writer.Running()
    ensures t == s.(outbound := t.outbound, writer := t.writer, wire := t.wire, written := t.written)
    ensures s.wire <= t.wire && s.written <= t.written
  {
    hide Seal, Packets.Encoding;
  }

  lemma OwnerFrame(s: State, step: OwnerStep, t: State)
    requires OwnerApply(s, step) == Some(t)
    ensures t == s.(accepting := t.accepting, fellAt := t.fellAt, alive := t.alive, sessions := t.sessions)
    ensures Undisturbed(s.sessions, t.sessions)
    ensures || (t.accepting == s.accepting && t.fellAt == s.fellAt)
            || (s.accepting && !t.accepting && t.fellAt == Some(s.clock)
                && s.reader.ReaderEnded? && s.writer.WriterEnded?)
    ensures t.fellAt != s.fellAt ==> step == DisableSessions
    ensures forall id :: id in s.sessions && t.sessions[id].marked ==>
              s.sessions[id].marked || step == MarkComplete(id)
  {
  }

  lemma CreatorFrame(s: State, k: nat, step: CreatorStep, t: State)
    requires CreatorApply(s, k, step) == Some(t)
    ensures t == s.(creators := t.creators, sessions := t.sessions)
    ensures forall id :: id in s.sessions ==> id in t.sessions && t.sessions[id] == s.sessions[id]
    ensures forall id :: id in t.sessions && id !in s.sessions ==>
              && t.sessions[id].holder == None && CounterOk(t.sessions[id])
              && !t.sessions[id].complete && !t.sessions[id].marked
  {
  }

  lemma StepKeepsRouting(cfg: Config, s: State, step: Step, t: State)
    requires RoutingOk(cfg, s) && Apply(cfg, s, step) == Some(t)
    ensures RoutingOk(cfg, t)
  {
    hide ReaderApply, WriterApply, CreatorApply, CallApply, OwnerApply, Decode, SessionRouted;
    var u := Act(cfg, s, step).value;
    assert RoutingOk(cfg, u) by {
      match step
      case OfReader(r) => ReaderKeepsRouting(cfg, s, r, u);
      case OfWriter(w) => WritersKeepRouting(cfg, s, w, u);
      case OfCreator(k, n) => CreatorsKeepRouting(cfg, s, k, n, u);
      case OfCall(c, a) => CallsKeepRouting(cfg, s, c, a, u);
      case OfOwner(o) => OwnersKeepRouting(cfg, s, o, u);
    }
  }

  lemma StepKeepsCalls(cfg: Config, s: State, step: Step, t: State)
    requires CallsOk(s) && Apply(cfg, s, step) == Some(t)
    ensures CallsOk(t)
  {
    hide CallsOk, ReaderApply, WriterApply, CreatorApply, CallApply, OwnerApply;
    var u := Act(cfg, s, step).value;
    match step
    case OfCall(c, a) =>
      if a.Begin? {
        BeginKeepsCalls(s, c, a, u, t);
      } else {
        MoveKeepsCalls(s, c, a, u, t);
      }
    case OfReader(r) =>
      ReaderFrame(cfg, s, r, u);
      OthersKeepCalls(s, t);
    case OfWriter(w) =>
      WriterFrame(cfg, s, w, u);
      OthersKeepCalls(s, t);
    case OfCreator(k, n) =>
      CreatorFrame(s, k, n, u);
      OthersKeepCalls(s, t);
    case OfOwner(o) =>
      OwnerFrame(s, o, u);
      OthersKeepCalls(s, t);
  }

  lemma StepKeepsCompletions(cfg: Config, s: State, step: Step, t: State)
    requires CompletionsOk(s) && Apply(cfg, s, step) == Some(t)
    ensures CompletionsOk(t)
  {
    hide CompletionsOk, ReaderApply, WriterApply, CreatorApply, CallApply, OwnerApply;
    var u := Act(cfg, s, step).value;
    match step {
      case OfCall(c, a) =>
        CallKeepsCompletions(s, c, a, u);
      case OfReader(r) =>
        ReaderFrame(cfg, s, r, u);
        OthersKeepCompletions(s, u);
      case OfWriter(w) =>
        WriterFrame(cfg, s, w, u);
        OthersKeepCompletions(s, u);
      case OfCreator(k, n) =>
        CreatorFrame(s, k, n, u);
        OthersKeepCompletions(s, u);
      case OfOwner(o) =>
        OwnerFrame(s, o, u);
        OthersKeepCompletions(s, u);
    }
    OthersKeepCompletions(u, t);
  }

  // ---------- The outbound side ----------

  /** The packets on their way out are those that entered the queue, in order. */
  predicate FifoOk(s: State) {
    && |s.outbound| <= Channels.CAPACITY
    && match s.writer
       case Taking => s.written + s.outbound == s.submitted
       case Writing(packet) => s.written + ([packet] + s.outbound) == s.submitted
       case _ => s.written <= s.submitted && |s.written| < |s.submitted| && s.outbound == []
  }

  lemma WriterKeepsFifo(cfg: Config, s: State, step: WriterStep, t: State)
    requires FifoOk(s) && WriterApply(cfg, s, step) == Some(t)
    ensures FifoOk(t)
  {
    hide Seal;
    match step
    case Take =>
      assert s.outbound == [s.outbound[0]] + s.outbound[1..];
    case Write =>
      assert s.written + ([s.writer.packet] + s.outbound) == (s.written + [s.writer.packet]) + s.outbound;
    case WriteFails(_) =>
  }

  lemma MoveKeepsFifo(s: State, c: nat, step: CallStep, t: State)
    requires FifoOk(s) && CallApply(s, c, step) == Some(t)
    ensures FifoOk(t)
  {
    if !step.Begin? {
      var call := s.calls[c];
      var m := CallMove(ViewOf(s), c, call, s.sessions[call.id], step).value;
      SentOnlyWithRoom(ViewOf(s), c, call, s.sessions[call.id], step, m);
      hide CallMove;
      assert s.outbound + [] == s.outbound && s.submitted + [] == s.submitted;
      if m.sent != [] && s.writer.Taking? {
        assert s.written + (s.outbound + m.sent) == (s.written + s.outbound) + m.sent;
      } else if m.sent != [] {
        var w := [s.writer.packet];
        assert s.written + (w + (s.outbound + m.sent)) == (s.written + (w + s.outbound)) + m.sent;
      }
    }
  }

  /** A call puts a packet into the queue only while there is room and the
      write loop runs, and the packet is the one it had ready. */
  lemma SentOnlyWithRoom(v: View, c: nat, call: Call, session: Session, step: CallStep, m: Move)
    requires CallMove(v, c, call, session, step) == Some(m)
    ensures m.sent == [] || (v.room && v.running && call.phase.Ready? && m.sent == [call.phase.packet])
    ensures m.call.phase.Ready? ==>
              m.call.phase.packet == Sessions.RequestPacket(call.id, session.nextSeq, call.request)
  {
    hide Replies.Decoding, Sessions.RequestPacket;
  }

  lemma StepKeepsFifo(cfg: Config, s: State, step: Step, t: State)
    requires FifoOk(s) && Apply(cfg, s, step) == Some(t)
    ensures FifoOk(t)
  {
    hide ReaderApply, WriterApply, CreatorApply, CallApply, OwnerApply;
    var u := Act(cfg, s, step).value;
    match step
    case OfCall(c, a) => MoveKeepsFifo(s, c, a, u);
    case OfReader(r) => ReaderFrame(cfg, s, r, u);
    case OfWriter(w) => WriterKeepsFifo(cfg, s, w, u);
    case OfCreator(k, n) => CreatorFrame(s, k, n, u);
    case OfOwner(o) => OwnerFrame(s, o, u);
  }

  // ---------- The registry ----------

  predicate CreatorOk(s: State, k: nat)
    requires k in s.creators
  {
    match s.creators[k]
    case Allowed(at) => at < s.clock && (s.fellAt.Some? ==> at < s.fellAt.value)
    case Registered(id, at) =>
      && at < s.clock && (s.fellAt.Some? ==> at < s.fellAt.value)
      && id in s.sessions && s.sessions[id].owner == k
    case _ => true
  }

  predicate OwnerOk(s: State, id: u32)
    requires id in s.sessions
  {
    var k := s.sessions[id].owner;
    k in s.creators && s.creators[k].Registered? && s.creators[k].id == id
  }

  /** Every session belongs to the one creator that registered it, whose check
      came before the accept flag fell; and that fell after both loops. */
  predicate RegistryOk(s: State) {
    && (forall k :: k in s.creators ==> CreatorOk(s, k))
    && (forall id :: id in s.sessions ==> OwnerOk(s, id))
    && (s.accepting <==> s.fellAt.None?)
    && (s.fellAt.Some? ==> s.reader.ReaderEnded? && s.writer.WriterEnded? && s.fellAt.value < s.clock)
  }

  lemma CreatorKeepsRegistry(s: State, k: nat, step: CreatorStep, u: State, t: State)
    requires RegistryOk(s) && CreatorApply(s, k, step) == Some(u) && t == u.(clock := s.clock + 1)
    ensures RegistryOk(t)
  {
    forall x | x in t.creators
      ensures CreatorOk(t, x)
    {
      if x in s.creators {
        assert CreatorOk(s, x);
      }
    }
    forall id | id in t.sessions
      ensures OwnerOk(t, id)
    {
      if id in s.sessions {
        assert OwnerOk(s, id);
      }
    }
  }

  lemma OthersKeepRegistry(s: State, t: State)
    requires RegistryOk(s) && t.creators == s.creators && t.clock == s.clock + 1
    requires t.sessions.Keys == s.sessions.Keys
    requires forall id :: id in s.sessions ==> t.sessions[id].owner == s.sessions[id].owner
    requires || (t.fellAt == s.fellAt && t.accepting == s.accepting)
             || (s.fellAt.None? && t.fellAt == Some(s.clock) && !t.accepting)
    requires t.fellAt.Some? ==> t.reader.ReaderEnded? && t.writer.WriterEnded?
    ensures RegistryOk(t)
  {
    forall x | x in t.creators
      ensures CreatorOk(t, x)
    {
      assert CreatorOk(s, x);
    }
    forall id | id in t.sessions
      ensures OwnerOk(t, id)
    {
      assert OwnerOk(s, id);
    }
  }

  lemma StepKeepsRegistry(cfg: Config, s: State, step: Step, t: State)
    requires RegistryOk(s) && Apply(cfg, s, step) == Some(t)
    ensures RegistryOk(t)
  {
    hide ReaderApply, WriterApply, CreatorApply, CallApply, OwnerApply;
    var u := Act(cfg, s, step).value;
    match step
    case OfCreator(k, n) =>
      CreatorKeepsRegistry(s, k, n, u, t);
    case OfCall(c, a) =>
      CallsAdvanceSessions(s, c, a, u);
      OthersKeepRegistry(s, t);
    case OfReader(r) =>
      ReaderFrame(cfg, s, r, u);
      OthersKeepRegistry(s, t);
    case OfWriter(w) =>
      WriterFrame(cfg, s, w, u);
      OthersKeepRegistry(s, t);
    case OfOwner(o) =>
      OwnerFrame(s, o, u);
      OthersKeepRegistry(s, t);
  }

  // ---------- The step system and the manager ----------

  /** The mailboxes of the session manager in a state of the step system. */
  function Boxes(s: State): map<u32, Mailbox> {
    map id | id in s.sessions :: Mailbox(s.sessions[id].queue, s.sessions[id].open)
  }

  /** The read loop's look-up and delivery steps together do what
      `send_message_to_session` does to the mailboxes: a packet leaves the loop
      exactly with the effect of routing it, and the delivery step is the one
      that waits, exactly when routing would have to. */
  lemma ReaderStepsRoute(cfg: Config, s: State, step: ReaderStep, t: State)
    requires ReaderApply(cfg, s, step) == Some(t)
    ensures t.routed == s.routed ==> Boxes(t) == Boxes(s)
    ensures t.routed != s.routed ==>
              && (s.reader.Routing? || s.reader.Delivering?)
              && t.routed == s.routed + [s.reader.packet]
              && Verdict(Boxes(s), s.reader.packet) != MustWait
              && Boxes(t) == Route(Boxes(s), s.reader.packet)
  {
    hide NextFrame, Open, Boxes;
    match step
    case ReadFrame => SameBoxes(s, t);
    case ReadFails => SameBoxes(s, t);
    case LookUp =>
      SameBoxes(s, t);
      BoxesOf(s);
    case Deliver =>
      DeliveryRoutes(s, s.reader.packet, t);
  }

  lemma SameBoxes(s: State, t: State)
    ensures t.sessions == s.sessions ==> Boxes(t) == Boxes(s)
  {
  }

  lemma BoxesOf(s: State)
    ensures Boxes(s).Keys == s.sessions.Keys
  {
  }

  lemma DeliveryRoutes(s: State, p: Packet, t: State)
    requires var id := p.header.sessionId;
             && id in s.sessions && Accept(s.sessions[id], p).Some?
             && t.sessions == s.sessions[id := Accept(s.sessions[id], p).value]
    ensures Verdict(Boxes(s), p) != MustWait && Boxes(t) == Route(Boxes(s), p)
  {
  }

  lemma DeliveryWaits(cfg: Config, s: State)
    requires s.reader.Delivering? && s.reader.packet.header.sessionId in s.sessions
    ensures ReaderApply(cfg, s, Deliver) == None <==> Verdict(Boxes(s), s.reader.packet) == MustWait
  {
  }
}
