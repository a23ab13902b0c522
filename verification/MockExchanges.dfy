/** Sessions that share a mock connection: each of them is served as if it were
    alone, and a first exchange end to end among the others. */
module MockExchanges {
  import opened Primitives
  import opened Packets
  import opened Framing
  import opened SessionManagers
  import opened Sessions
  import opened MockConnections
  import Channels
  import Requests = AccountingRequests
  import Replies = AccountingReplies

  // ---------- The handler's loop in the history ----------

  function AsActions(queue: seq<Packet>): seq<Action> {
    seq(|queue|, i requires 0 <= i < |queue| => HandleRequest(queue[i]))
  }

  /** A poll of the handler is a stretch of a run: the requests it takes off
      the queue are the next actions, with the same stores afterwards. */
  lemma {:induction false} ServingIsARun(checks: bool, actions: seq<Action>, boxes: map<u32, Mailbox>,
                                         queue: seq<Packet>)
    requires !Run(checks, actions).panicked
    ensures var s := Run(checks, actions).stores;
            var served, behind := Serve(checks, s, boxes, queue), Behind(checks, s, boxes, queue);
            && |behind| <= |queue|
            && var after := Run(checks, actions + AsActions(queue[..|queue| - |behind|]));
               after.stores == served.stores && (after.panicked <==> served.progress == HandlerPanicked)
  {
    hide Run, Act, ServeOne;
    if queue == [] {
      assert actions + AsActions(queue[..0]) == actions;
    } else {
      var s := Run(checks, actions).stores;
      var init, last := queue[..|queue| - 1], queue[|queue| - 1];
      ServingIsARun(checks, actions, boxes, init);
      var before, behind := Serve(checks, s, boxes, init), Behind(checks, s, boxes, init);
      if before.progress == Listening {
        NothingBehind(checks, s, boxes, init);
        assert init[..|init|] == init && queue[..|queue|] == queue;
        assert actions + AsActions(queue) == (actions + AsActions(init)) + [HandleRequest(last)];
        OneMoreAction(checks, actions + AsActions(init), before.boxes, last);
      } else {
        assert queue[..|queue| - |behind + [last]|] == init[..|init| - |behind|];
      }
    }
  }

  lemma OneMoreAction(checks: bool, actions: seq<Action>, boxes: map<u32, Mailbox>, request: Packet)
    requires !Run(checks, actions).panicked
    ensures var after := Run(checks, actions + [HandleRequest(request)]);
            var served := ServeOne(checks, Run(checks, actions).stores, boxes, request);
            after.stores == served.stores && (after.panicked <==> served.progress == HandlerPanicked)
  {
    hide Handle, Route, Verdict;
    assert (actions + [HandleRequest(request)])[..|actions|] == actions;
  }

  // ---------- One session's part ----------

  /** What the mock holds for one session. */
  datatype Part = Part(replies: Option<map<byte, Packet>>, requests: Option<map<byte, Packet>>, box: Option<Mailbox>)

  function Entry<T>(m: map<u32, T>, id: u32): Option<T> {
    if id in m then Some(m[id]) else None
  }

  function PartOf(s: Stores, boxes: map<u32, Mailbox>, id: u32): Part {
    Part(Entry(s.replies, id), Entry(s.requests, id), Entry(boxes, id))
  }

  /** A request touches nothing of another session's, even when its handling
      stops the handler. */
  lemma ServeOneKeepsOthers(checks: bool, s: Stores, boxes: map<u32, Mailbox>, request: Packet, id: u32)
    requires Keyed(s.replies)
    ensures var after := ServeOne(checks, s, boxes, request);
            && Keyed(after.stores.replies)
            && (request.header.sessionId != id ==> PartOf(after.stores, after.boxes, id) == PartOf(s, boxes, id))
  {
    var own := request.header.sessionId;
    var found := Lookup(s.replies, own, NumberAfter(request));
    if found.Some? {
      assert Bears(found.value, own, NumberAfter(request));
      RemovedIsKeyed(s.replies, own, NumberAfter(request));
    }
  }

  /** What becomes of a request depends on its own session's part only. */
  lemma ServeOneIsLocal(checks: bool, s: Stores, boxes: map<u32, Mailbox>, s': Stores, boxes': map<u32, Mailbox>,
                        request: Packet)
    requires Keyed(s.replies) && Keyed(s'.replies)
    requires PartOf(s, boxes, request.header.sessionId) == PartOf(s', boxes', request.header.sessionId)
    ensures var after, after' := ServeOne(checks, s, boxes, request), ServeOne(checks, s', boxes', request);
            && after.progress == after'.progress
            && PartOf(after.stores, after.boxes, request.header.sessionId)
            == PartOf(after'.stores, after'.boxes, request.header.sessionId)
  {
    var own := request.header.sessionId;
    var found := Lookup(s.replies, own, NumberAfter(request));
    assert found == Lookup(s'.replies, own, NumberAfter(request));
    if found.Some? {
      assert Bears(found.value, own, NumberAfter(request));
    }
  }

  lemma {:induction false} ServeKeepsKeyed(checks: bool, s: Stores, boxes: map<u32, Mailbox>, queue: seq<Packet>)
    requires Keyed(s.replies)
    ensures Keyed(Serve(checks, s, boxes, queue).stores.replies)
  {
    hide Keyed, ServeOne;
    if queue != [] {
      var init, last := queue[..|queue| - 1], queue[|queue| - 1];
      ServeKeepsKeyed(checks, s, boxes, init);
      var before := Serve(checks, s, boxes, init);
      ServeOneKeepsOthers(checks, before.stores, before.boxes, last, last.header.sessionId);
    }
  }

  /** Requests of other sessions change nothing of a session's part. */
  lemma {:induction false} ServeKeepsOthers(checks: bool, s: Stores, boxes: map<u32, Mailbox>, queue: seq<Packet>,
                                            id: u32)
    requires Keyed(s.replies) && OfSession(queue, id) == []
    ensures var served := Serve(checks, s, boxes, queue);
            PartOf(served.stores, served.boxes, id) == PartOf(s, boxes, id)
  {
    hide Keyed, ServeOne, PartOf;
    if queue != [] {
      var init, last := queue[..|queue| - 1], queue[|queue| - 1];
      ServeKeepsOthers(checks, s, boxes, init, id);
      ServeKeepsKeyed(checks, s, boxes, init);
      var before := Serve(checks, s, boxes, init);
      ServeOneKeepsOthers(checks, before.stores, before.boxes, last, id);
    }
  }

  /** Sessions are independent: as long as the handler does not stop, what it
      leaves a session with is what it would leave it with had it been handed
      that session's requests alone. */
  lemma {:induction false} SessionsAreIndependent(checks: bool, s: Stores, boxes: map<u32, Mailbox>,
                                                  queue: seq<Packet>, id: u32)
    requires Keyed(s.replies) && Serve(checks, s, boxes, queue).progress == Listening
    ensures var served, alone := Serve(checks, s, boxes, queue), Serve(checks, s, boxes, OfSession(queue, id));
            && alone.progress == Listening
            && PartOf(served.stores, served.boxes, id) == PartOf(alone.stores, alone.boxes, id)
  {
    hide Keyed, ServeOne, PartOf;
    if queue != [] {
      var init, last := queue[..|queue| - 1], queue[|queue| - 1];
      SessionsAreIndependent(checks, s, boxes, init, id);
      ServeKeepsKeyed(checks, s, boxes, init);
      ServeKeepsKeyed(checks, s, boxes, OfSession(init, id));
      var before, alone := Serve(checks, s, boxes, init), Serve(checks, s, boxes, OfSession(init, id));
      ServeOneKeepsOthers(checks, before.stores, before.boxes, last, id);
      if last.header.sessionId == id {
        ServeOneIsLocal(checks, before.stores, before.boxes, alone.stores, alone.boxes, last);
        ServeOneMore(checks, s, boxes, OfSession(init, id), last);
      } else {
        assert OfSession(queue, id) == OfSession(init, id);
      }
    }
  }

  // ---------- A first exchange ----------

  /** The session is fresh, except for the one reply stored for it. */
  predicate Expecting(s: Stores, boxes: map<u32, Mailbox>, id: u32, stored: Packet) {
    Bears(stored, id, 2) && PartOf(s, boxes, id) == Part(Some(map[2 := stored]), None, Some(Mailbox([], true)))
  }

  function AnsweredPart(asked: Packet, stored: Packet): Part {
    Part(Some(map[]), Some(map[1 := asked]), Some(Mailbox([stored], true)))
  }

  lemma FirstHandled(checks: bool, s: Stores, asked: Packet, stored: Packet)
    requires Bears(stored, asked.header.sessionId, 2) && asked.header.seqNo == 1
    requires asked.header.sessionId in s.replies && s.replies[asked.header.sessionId] == map[2 := stored]
    requires asked.header.sessionId !in s.requests
    ensures Handle(checks, s, asked)
         == Replied(stored, Stores(s.replies[asked.header.sessionId := map[]],
                                   s.requests[asked.header.sessionId := map[1 := asked]]))
  {
    assert s.replies[asked.header.sessionId] - {2} == map[];
  }

  lemma FirstServed(checks: bool, s: Stores, boxes: map<u32, Mailbox>, asked: Packet, stored: Packet, id: u32)
    requires Expecting(s, boxes, id, stored) && Bears(asked, id, 1)
    ensures var after := ServeOne(checks, s, boxes, asked);
            after.progress == Listening && PartOf(after.stores, after.boxes, id) == AnsweredPart(asked, stored)
  {
    assert s.replies[id] == map[2 := stored];
    FirstHandled(checks, s, asked, stored);
    assert boxes[id] == Mailbox([], true);
    assert Route(boxes, stored)[id] == Mailbox([stored], true);
  }

  /** A first request among requests of other sessions is answered if and only
      if the handler does not stop ahead of it; otherwise the session is left
      as it was. */
  lemma FirstIsAnswered(checks: bool, s: Stores, boxes: map<u32, Mailbox>, ahead: seq<Packet>, asked: Packet,
                        behind: seq<Packet>, stored: Packet, id: u32)
    requires Keyed(s.replies) && Expecting(s, boxes, id, stored) && Bears(asked, id, 1)
    requires OfSession(ahead, id) == [] && OfSession(behind, id) == []
    ensures var served := Serve(checks, s, boxes, ahead + [asked] + behind);
            PartOf(served.stores, served.boxes, id)
            == (if Serve(checks, s, boxes, ahead).progress == Listening then AnsweredPart(asked, stored)
                else PartOf(s, boxes, id))
  {
    hide Keyed, ServeOne, Serve, PartOf, AnsweredPart;
    var before := Serve(checks, s, boxes, ahead);
    ServeKeepsOthers(checks, s, boxes, ahead, id);
    ServeKeepsKeyed(checks, s, boxes, ahead);
    ServeKeepsKeyed(checks, s, boxes, ahead + [asked]);
    ServeOneMore(checks, s, boxes, ahead, asked);
    ServeInTwoParts(checks, s, boxes, ahead + [asked], behind);
    if before.progress == Listening {
      FirstServed(checks, before.stores, before.boxes, asked, stored, id);
      var after := ServeOne(checks, before.stores, before.boxes, asked);
      ServeKeepsOthers(checks, after.stores, after.boxes, behind, id);
    }
  }

  /** Other sessions queue requests of their own. */
  method OthersAsk(sender: Channels.Channel, packets: seq<Packet>)
    requires sender.Valid() && sender.receiverOpen && |sender.queue| + |packets| <= Channels.CAPACITY
    modifies sender`queue
    ensures sender.Valid() && sender.queue == old(sender.queue) + packets
  {
    for i := 0 to |packets|
      invariant sender.Valid() && sender.queue == old(sender.queue) + packets[..i]
    {
      var _ := sender.Send(packets[i]);
    }
  }

  /** The session belongs to the mock, and nothing has happened on it yet. */
  ghost predicate Fresh(mock: MockConnection, session: Session)
    reads mock, mock.manager, session, session.receiver
  {
    && session.sender == mock.manager.sender && session.sessionId in mock.manager.duplexChannels
    && mock.manager.duplexChannels[session.sessionId] == session.receiver
    && session.currentSequenceNumber == FIRST_SEQUENCE_NUMBER && !session.sessionComplete
    && session.receiver.queue == [] && session.receiver.receiverOpen && session.receiver.sendersOpen
    && session.sessionId !in mock.replies && session.sessionId !in mock.requests
  }

  /** What the handler starts from once the reply has been stored. */
  ghost function Prepared(mock: MockConnection, stored: Packet): Stores
    reads mock
  {
    Stores(Stored(mock.replies, stored), mock.requests)
  }

  /** A reply is stored, and the request is sent; then others ask. */
  method AskFirst(mock: MockConnection, session: Session, request: Requests.AccountingRequest,
                  reply: Replies.AccountingReply, behind: seq<Packet>)
    requires mock.Valid() && session.Valid() && Fresh(mock, session)
    requires session.sender.receiverOpen && |session.sender.queue| + 1 + |behind| <= Channels.CAPACITY
    modifies mock`replies, session`currentSequenceNumber, session.sender`queue
    ensures mock.Valid() && session.Valid() && mock.manager.Mailboxes() == old(mock.manager.Mailboxes())
    ensures var asked, stored := RequestPacket(session.sessionId, 1, request), ReplyPacket(session.sessionId, 2, reply);
            && mock.Contents() == old(Prepared(mock, stored))
            && session.sender.queue == old(session.sender.queue) + [asked] + behind
            && Bears(asked, session.sessionId, 1)
            && Expecting(mock.Contents(), mock.manager.Mailboxes(), session.sessionId, stored)
  {
    hide Requests.Encoding, Replies.Encoding, Keyed, SessionManager.Mailboxes;
    var id := session.sessionId;
    mock.AddAccountingReply(id, 2, reply);
    var complete := session.IsComplete();
    assert !complete;
    var submitted := session.SubmitAccountingRequest(request);
    OthersAsk(session.sender, behind);
    BoxOf(mock.manager, id);
  }

  /** The handler's side of a first exchange. */
  method AnswerFirst(mock: MockConnection, session: Session, ghost ahead: seq<Packet>, ghost asked: Packet,
                     ghost behind: seq<Packet>, ghost stored: Packet)
    requires mock.Valid() && session.Valid() && session.sender == mock.manager.sender
    requires session.sessionId in mock.manager.duplexChannels
    requires mock.manager.duplexChannels[session.sessionId] == session.receiver
    requires session.sender.queue == ahead + [asked] + behind && Bears(asked, session.sessionId, 1)
    requires OfSession(ahead, session.sessionId) == [] && OfSession(behind, session.sessionId) == []
    requires Expecting(mock.Contents(), mock.manager.Mailboxes(), session.sessionId, stored)
    modifies mock`replies, mock`requests, session.sender`queue, session.sender`receiverOpen
    modifies mock.manager.duplexChannels.Values`queue
    ensures mock.Valid() && session.Valid()
    ensures var s, boxes := old(mock.Contents()), old(mock.manager.Mailboxes());
            && mock.Contents() == Serve(mock.overflowChecks, s, boxes, ahead + [asked] + behind).stores
            && var answered := Serve(mock.overflowChecks, s, boxes, ahead).progress == Listening;
               && session.receiver.queue == (if answered then [stored] else [])
               && Entry(mock.replies, session.sessionId) == Some(if answered then map[] else map[2 := stored])
               && Entry(mock.requests, session.sessionId) == (if answered then Some(map[1 := asked]) else None)
  {
    hide Serve, ServeOne, Behind, OfSession, Keyed, SessionManager.Mailboxes;
    ghost var s, boxes, id := mock.Contents(), mock.manager.Mailboxes(), session.sessionId;
    FirstIsAnswered(mock.overflowChecks, s, boxes, ahead, asked, behind, stored, id);
    var _ := mock.Poll();
    BoxOf(mock.manager, id);
  }

  /** End to end, among other sessions: whatever is asked, the first request on
      a fresh session for which a reply was stored under sequence number 2
      returns that reply, completes the session, uses the stored reply up and
      records exactly the one request, whatever other sessions have queued
      ahead of it and queue behind it, if and only if the handler does not stop
      at one of those ahead.  If it does, the call goes on waiting. */
  method FirstExchange(mock: MockConnection, session: Session, request: Requests.AccountingRequest,
                       reply: Replies.AccountingReply, behind: seq<Packet>)
    returns (answer: FinishOutcome)
    requires mock.Valid() && session.Valid() && Fresh(mock, session) && reply.WithinBounds()
    requires session.sender.receiverOpen && |session.sender.queue| + 1 + |behind| <= Channels.CAPACITY
    requires OfSession(session.sender.queue, session.sessionId) == []
    requires OfSession(behind, session.sessionId) == []
    modifies mock`replies, mock`requests, session, session.sender`queue, session.sender`receiverOpen
    modifies mock.manager.duplexChannels.Values`queue
    ensures mock.Valid() && session.Valid()
    ensures session.receiver.queue == []
    ensures var asked, stored := RequestPacket(session.sessionId, 1, request), ReplyPacket(session.sessionId, 2, reply);
            var s, boxes := old(Prepared(mock, stored)), old(mock.manager.Mailboxes());
            && mock.Contents()
            == Serve(mock.overflowChecks, s, boxes, old(session.sender.queue) + [asked] + behind).stores
            && if Serve(mock.overflowChecks, s, boxes, old(session.sender.queue)).progress == Listening then
                 && answer == FinishOutcome.Answered(reply) && session.sessionComplete
                 && Entry(mock.replies, session.sessionId) == Some(map[])
                 && Entry(mock.requests, session.sessionId) == Some(map[1 := asked])
               else
                 && answer == NoAnswerYet && !session.sessionComplete
                 && Entry(mock.replies, session.sessionId) == Some(map[2 := stored])
                 && Entry(mock.requests, session.sessionId) == None
  {
    hide Replies.Decoding, Replies.Encoding, Serve, OfSession, Keyed, RequestPacket, SessionManager.Mailboxes;
    var id := session.sessionId;
    ghost var ahead, asked, stored := session.sender.queue, RequestPacket(id, 1, request), ReplyPacket(id, 2, reply);
    AskFirst(mock, session, request, reply, behind);
    AnswerFirst(mock, session, ahead, asked, behind, stored);
    Replies.EncodeThenDecode(reply, []);
    assert stored.body + [] == stored.body;
    answer := session.FinishAccountingRequest();
  }

  lemma BoxOf(manager: SessionManager, id: u32)
    requires id in manager.duplexChannels
    ensures var channel := manager.duplexChannels[id];
            Entry(manager.Mailboxes(), id) == Some(Mailbox(channel.queue, channel.receiverOpen))
  {
  }
}
