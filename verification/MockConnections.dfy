/** The mock connection: replies are stored under session id and sequence
    number, and a request fetches the one stored under the next number. */
module MockConnections {
  import opened Primitives
  import opened Packets
  import opened SessionManagers
  import opened Sessions
  import Replies = AccountingReplies

  type Store = map<u32, map<byte, Packet>>

  function Lookup(store: Store, id: u32, n: byte): Option<Packet> {
    if id in store && n in store[id] then Some(store[id][n]) else None
  }

  function Stored(store: Store, p: Packet): Store {
    var id := p.header.sessionId;
    var list := if id in store then store[id] else map[];
    store[id := list[p.header.seqNo := p]]
  }

  function Removed(store: Store, id: u32, n: byte): Store
    requires id in store
  {
    store[id := store[id] - {n}]
  }

  // ---------- One iteration of the handler ----------

  /** `seq_no + 1`: an overflow panics in a build with overflow checks and
      wraps round in one without. */
  function ReplyNumber(checks: bool, n: byte): Attempt<byte> {
    if n == 0xff && checks then Panicked else Returned((n + 1) % 0x100)
  }

  /** What happened to the stores, oldest first. */
  datatype Event =
    | Added(reply: Packet)
    | Answered(request: Packet, reply: Packet)

  datatype Stores = Stores(replies: Store, requests: Store)

  /** Handling a request: without a stored reply it is dropped unrecorded. */
  datatype Handling = Overflow | Dropped | Replied(reply: Packet, after: Stores)

  function Handle(checks: bool, s: Stores, request: Packet): Handling {
    match ReplyNumber(checks, request.header.seqNo)
    case Panicked => Overflow
    case Returned(n) =>
      var id := request.header.sessionId;
      match Lookup(s.replies, id, n)
      case None => Dropped
      case Some(reply) => Replied(reply, Stores(Removed(s.replies, id, n), Stored(s.requests, request)))
  }

  // ---------- Whole runs ----------

  datatype Action = AddReply(reply: Packet) | HandleRequest(request: Packet)

  datatype Mock = Mock(stores: Stores, events: seq<Event>, panicked: bool)

  function Act(checks: bool, m: Mock, action: Action): Mock {
    if m.panicked && action.HandleRequest? then m
    else
      match action
      case AddReply(p) => Mock(m.stores.(replies := Stored(m.stores.replies, p)), m.events + [Added(p)], m.panicked)
      case HandleRequest(request) =>
        match Handle(checks, m.stores, request)
        case Overflow => m.(panicked := true)
        case Dropped => m
        case Replied(reply, after) => Mock(after, m.events + [Event.Answered(request, reply)], false)
  }

  function Run(checks: bool, actions: seq<Action>): Mock {
    if actions == [] then Mock(Stores(map[], map[]), [], false)
    else Act(checks, Run(checks, actions[..|actions| - 1]), actions[|actions| - 1])
  }

  predicate Bears(p: Packet, id: u32, n: byte) {
    p.header.sessionId == id && p.header.seqNo == n
  }

  /** The reply that the history leaves under a key: the last one added and
      not answered with since. */
  function Current(events: seq<Event>, id: u32, n: byte): Option<Packet> {
    if events == [] then None
    else
      match events[|events| - 1]
      case Added(p) =>
        if Bears(p, id, n) then Some(p) else Current(events[..|events| - 1], id, n)
      case Answered(_, p) =>
        if Bears(p, id, n) then None else Current(events[..|events| - 1], id, n)
  }

  /** The request that the history leaves on record under a key: the last one
      answered. */
  function Recorded(events: seq<Event>, id: u32, n: byte): Option<Packet> {
    if events == [] then None
    else
      var e := events[|events| - 1];
      if e.Answered? && Bears(e.request, id, n) then Some(e.request)
      else Recorded(events[..|events| - 1], id, n)
  }

  /** The number under which a request finds its reply. */
  function NumberAfter(request: Packet): byte {
    (request.header.seqNo + 1) % 0x100
  }

  /** An answer is honest when it is the reply the history held under the next
      number of the request's own session. */
  predicate Honest(events: seq<Event>, i: nat)
    requires i < |events| && events[i].Answered?
  {
    var request, reply := events[i].request, events[i].reply;
    && Bears(reply, request.header.sessionId, NumberAfter(request))
    && Current(events[..i], reply.header.sessionId, reply.header.seqNo) == Some(reply)
  }

  predicate MockOk(m: Mock) {
    && (forall id, n :: Lookup(m.stores.replies, id, n) == Current(m.events, id, n))
    && (forall id, n :: Lookup(m.stores.requests, id, n) == Recorded(m.events, id, n))
    && (forall i :: 0 <= i < |m.events| && m.events[i].Answered? ==> Honest(m.events, i))
  }

  lemma {:induction false} CurrentBearsItsKey(events: seq<Event>, id: u32, n: byte)
    ensures var p := Current(events, id, n); p.Some? ==> Bears(p.value, id, n)
  {
    if events != [] {
      CurrentBearsItsKey(events[..|events| - 1], id, n);
    }
  }

  lemma EventsGrow(events: seq<Event>, e: Event, i: nat)
    requires i < |events| && events[i].Answered? && Honest(events, i)
    ensures Honest(events + [e], i)
  {
    assert (events + [e])[..i] == events[..i];
  }

  lemma ActKeepsOk(checks: bool, m: Mock, action: Action)
    requires MockOk(m)
    ensures MockOk(Act(checks, m, action))
  {
    hide Honest, Current, Recorded;
    var after := Act(checks, m, action);
    if after.events != m.events {
      var e := after.events[|m.events|];
      assert after.events == m.events + [e];
      forall i | 0 <= i < |after.events| && after.events[i].Answered?
        ensures Honest(after.events, i)
      {
        if i < |m.events| {
          assert after.events[i] == m.events[i];
          EventsGrow(m.events, e, i);
        } else {
          LastIsHonest(checks, m, action.request);
        }
      }
      forall id, n
        ensures Lookup(after.stores.replies, id, n) == Current(after.events, id, n)
        ensures Lookup(after.stores.requests, id, n) == Recorded(after.events, id, n)
      {
        KeyFollows(checks, m, action, id, n);
      }
    }
  }

  lemma LastIsHonest(checks: bool, m: Mock, request: Packet)
    requires MockOk(m) && Handle(checks, m.stores, request).Replied?
    ensures var reply := Handle(checks, m.stores, request).reply;
            Honest(m.events + [Event.Answered(request, reply)], |m.events|)
  {
    var reply := Handle(checks, m.stores, request).reply;
    var id, n := request.header.sessionId, NumberAfter(request);
    assert Lookup(m.stores.replies, id, n) == Current(m.events, id, n);
    CurrentBearsItsKey(m.events, id, n);
    var events := m.events + [Event.Answered(request, reply)];
    assert events[..|m.events|] == m.events;
  }

  lemma KeyFollows(checks: bool, m: Mock, action: Action, id: u32, n: byte)
    requires MockOk(m) && Act(checks, m, action).events != m.events
    ensures var after := Act(checks, m, action);
            && Lookup(after.stores.replies, id, n) == Current(after.events, id, n)
            && Lookup(after.stores.requests, id, n) == Recorded(after.events, id, n)
  {
    hide Honest;
    var after := Act(checks, m, action);
    assert after.events[..|after.events| - 1] == m.events;
    assert Lookup(m.stores.replies, id, n) == Current(m.events, id, n);
    assert Lookup(m.stores.requests, id, n) == Recorded(m.events, id, n);
    if action.HandleRequest? {
      var request := action.request;
      var k := NumberAfter(request);
      assert Lookup(m.stores.replies, request.header.sessionId, k) == Current(m.events, request.header.sessionId, k);
      CurrentBearsItsKey(m.events, request.header.sessionId, k);
    }
  }

  lemma {:induction false} RunIsOk(checks: bool, actions: seq<Action>)
    ensures MockOk(Run(checks, actions))
  {
    hide MockOk, Act;
    if actions == [] {
      assert MockOk(Run(checks, [])) by {
        EmptyIsOk();
      }
    } else {
      RunIsOk(checks, actions[..|actions| - 1]);
      ActKeepsOk(checks, Run(checks, actions[..|actions| - 1]), actions[|actions| - 1]);
    }
  }

  lemma EmptyIsOk()
    ensures MockOk(Mock(Stores(map[], map[]), [], false))
  {
  }

  predicate Touches(e: Event, id: u32, n: byte) {
    Bears(e.reply, id, n)
  }

  lemma {:induction false} CurrentWasAdded(events: seq<Event>, id: u32, n: byte) returns (j: nat)
    requires Current(events, id, n).Some?
    ensures j < |events| && events[j] == Added(Current(events, id, n).value)
    ensures forall k :: j < k < |events| ==> !Touches(events[k], id, n)
  {
    j := |events| - 1;
    if !Touches(events[j], id, n) {
      j := CurrentWasAdded(events[..j], id, n);
    }
  }

  lemma {:induction false} AnsweredIsRecorded(events: seq<Event>, i: nat)
    requires i < |events| && events[i].Answered?
    ensures var request := events[i].request;
            var kept := Recorded(events, request.header.sessionId, request.header.seqNo);
            kept.Some? && exists k :: i <= k < |events| && events[k].Answered? && events[k].request == kept.value
  {
    var request := events[i].request;
    var id, n := request.header.sessionId, request.header.seqNo;
    var last := |events| - 1;
    if events[last].Answered? && Bears(events[last].request, id, n) {
      assert events[last].request == Recorded(events, id, n).value;
    } else {
      AnsweredIsRecorded(events[..last], i);
      var k :| i <= k < last && events[..last][k].Answered?
               && events[..last][k].request == Recorded(events[..last], id, n).value;
      assert events[k].request == Recorded(events, id, n).value;
    }
  }

  /** Mock conservation: over any run, every reply that answered a request had
      been added, with no other event under its key in between; it bears the
      request's session and the number after the request's (modulo 256), and
      on record is the request itself or a later answered one of its number. */
  lemma EveryAnswerWasAdded(checks: bool, actions: seq<Action>, i: nat)
    requires var events := Run(checks, actions).events; i < |events| && events[i].Answered?
    ensures var m := Run(checks, actions);
            var request, reply := m.events[i].request, m.events[i].reply;
            && reply.header.sessionId == request.header.sessionId
            && reply.header.seqNo == (request.header.seqNo + 1) % 0x100
            && (var kept := Lookup(m.stores.requests, request.header.sessionId, request.header.seqNo);
                kept.Some?
                && exists k :: i <= k < |m.events| && m.events[k].Answered? && m.events[k].request == kept.value)
            && exists j :: AnswersFrom(m.events, i, j)
  {
    hide Run;
    RunIsOk(checks, actions);
    var events := Run(checks, actions).events;
    assert Honest(events, i);
    AnsweredIsRecorded(events, i);
    var reply := events[i].reply;
    var j := CurrentWasAdded(events[..i], reply.header.sessionId, reply.header.seqNo);
    assert AnswersFrom(events, i, j);
  }

  /** The reply of answer `i` is the one added at `j`, and nothing happened
      under its key from `j` to `i`. */
  predicate AnswersFrom(events: seq<Event>, i: nat, j: nat) {
    && j < i < |events| && events[i].Answered?
    && events[j] == Added(events[i].reply)
    && forall k :: j < k < i ==> !Touches(events[k], events[i].reply.header.sessionId, events[i].reply.header.seqNo)
  }

  /** No stored reply answers twice: different answers come from different
      additions. */
  lemma AnswersAreDistinct(events: seq<Event>, i: nat, j: nat, i': nat, j': nat)
    requires AnswersFrom(events, i, j) && AnswersFrom(events, i', j') && i < i'
    ensures j != j'
  {
    if j == j' {
      assert Touches(events[i], events[i'].reply.header.sessionId, events[i'].reply.header.seqNo);
    }
  }

  predicate Overflows(action: Action) {
    action.HandleRequest? && action.request.header.seqNo == 0xff
  }

  /** A run of the mock panics if and only if the build checks for overflow and
      some request it was handed bears the number 255. */
  lemma {:induction false} RunPanics(checks: bool, actions: seq<Action>)
    ensures Run(checks, actions).panicked <==> checks && exists i :: 0 <= i < |actions| && Overflows(actions[i])
  {
    if actions != [] {
      var last := |actions| - 1;
      var init := actions[..last];
      RunPanics(checks, init);
      assert Run(checks, actions).panicked <==> Run(checks, init).panicked || (checks && Overflows(actions[last]));
      if i :| 0 <= i < |init| && Overflows(init[i]) {
        assert Overflows(actions[i]);
      }
      if i :| 0 <= i < |actions| && Overflows(actions[i]) {
        assert i == last || Overflows(init[i]);
      }
    }
  }

  /** One request at a time: it is the request's number alone that overflows,
      and without checks number 255 is answered from number 0. */
  lemma RequestOverflows(checks: bool, s: Stores, request: Packet)
    ensures Handle(checks, s, request) == Overflow <==> checks && request.header.seqNo == 0xff
    ensures Handle(checks, s, request).Replied?
       <==> && !(checks && request.header.seqNo == 0xff)
            && Lookup(s.replies, request.header.sessionId, NumberAfter(request)).Some?
  {
  }

  // ---------- The handler ----------

  /** After an iteration: back at the queue, waiting for room in the session's
      queue with this reply and both stores locked, or dead. */
  datatype HandlerProgress = Listening | Stalled(reply: Packet) | HandlerPanicked

  /** The stores, the sessions' mailboxes and the handler itself. */
  datatype Served = Served(stores: Stores, boxes: map<u32, Mailbox>, progress: HandlerProgress)

  function ServeOne(checks: bool, s: Stores, boxes: map<u32, Mailbox>, request: Packet): Served {
    match Handle(checks, s, request)
    case Overflow => Served(s, boxes, HandlerPanicked)
    case Dropped => Served(s, boxes, Listening)
    case Replied(reply, after) =>
      Served(after, Route(boxes, reply), if Verdict(boxes, reply) == MustWait then Stalled(reply) else Listening)
  }

  /** What the handler makes of a whole queue, up to the request it stops at. */
  function Serve(checks: bool, s: Stores, boxes: map<u32, Mailbox>, queue: seq<Packet>): Served {
    if queue == [] then Served(s, boxes, Listening)
    else
      var before := Serve(checks, s, boxes, queue[..|queue| - 1]);
      if before.progress != Listening then before
      else ServeOne(checks, before.stores, before.boxes, queue[|queue| - 1])
  }

  lemma ServeOneMore(checks: bool, s: Stores, boxes: map<u32, Mailbox>, queue: seq<Packet>, request: Packet)
    ensures var before := Serve(checks, s, boxes, queue);
            Serve(checks, s, boxes, queue + [request])
            == (if before.progress != Listening then before
                else ServeOne(checks, before.stores, before.boxes, request))
  {
    hide ServeOne;
    assert (queue + [request])[..|queue + [request]| - 1] == queue;
  }

  /** Serving a queue in two parts: the second one is not reached when the
      handler stops in the first. */
  lemma {:induction false} ServeInTwoParts(checks: bool, s: Stores, boxes: map<u32, Mailbox>, a: seq<Packet>,
                                           b: seq<Packet>)
    ensures var before := Serve(checks, s, boxes, a);
            Serve(checks, s, boxes, a + b)
            == (if before.progress != Listening then before else Serve(checks, before.stores, before.boxes, b))
  {
    hide ServeOne;
    if b == [] {
      assert a + b == a;
    } else {
      var init, last := b[..|b| - 1], b[|b| - 1];
      assert a + b == (a + init) + [last];
      ServeInTwoParts(checks, s, boxes, a, init);
      ServeOneMore(checks, s, boxes, a + init, last);
    }
  }

  /** The requests behind the one the handler stops at. */
  function Behind(checks: bool, s: Stores, boxes: map<u32, Mailbox>, queue: seq<Packet>): seq<Packet> {
    if queue == [] then []
    else
      var init := queue[..|queue| - 1];
      if Serve(checks, s, boxes, init).progress == Listening then []
      else Behind(checks, s, boxes, init) + [queue[|queue| - 1]]
  }

  lemma {:induction false} StopsAt(checks: bool, s: Stores, boxes: map<u32, Mailbox>, front: seq<Packet>,
                                   request: Packet, rest: seq<Packet>)
    requires Serve(checks, s, boxes, front).progress == Listening
    requires Serve(checks, s, boxes, front + [request]).progress != Listening
    ensures Serve(checks, s, boxes, front + [request] + rest) == Serve(checks, s, boxes, front + [request])
    ensures Behind(checks, s, boxes, front + [request] + rest) == rest
  {
    hide ServeOne, Serve;
    var longer := front + [request];
    assert longer[..|longer| - 1] == front;
    if rest == [] {
      assert longer + rest == longer;
    } else {
      var init, last := rest[..|rest| - 1], rest[|rest| - 1];
      StopsAt(checks, s, boxes, front, request, init);
      ServeOneMore(checks, s, boxes, longer + init, last);
      assert longer + rest == (longer + init) + [last];
      assert (longer + rest)[..|longer + rest| - 1] == longer + init;
    }
  }

  /** Every reply is stored under its own session id and number. */
  predicate Keyed(store: Store) {
    forall id, n :: id in store && n in store[id] ==> Bears(store[id][n], id, n)
  }

  lemma StoredIsKeyed(store: Store, p: Packet)
    requires Keyed(store)
    ensures Keyed(Stored(store, p))
  {
  }

  lemma LookedUpIsThere(store: Store, id: u32, n: byte)
    ensures Lookup(store, id, n).Some? ==> id in store
  {
  }

  lemma RemovedIsKeyed(store: Store, id: u32, n: byte)
    requires Keyed(store) && id in store
    ensures Keyed(Removed(store, id, n))
  {
  }

  lemma NothingServed(checks: bool, s: Stores, boxes: map<u32, Mailbox>)
    ensures Serve(checks, s, boxes, []) == Served(s, boxes, Listening)
  {
  }

  lemma NothingBehind(checks: bool, s: Stores, boxes: map<u32, Mailbox>, queue: seq<Packet>)
    requires Serve(checks, s, boxes, queue).progress == Listening
    ensures Behind(checks, s, boxes, queue) == []
  {
    hide ServeOne;
  }

  // ---------- The connection object ----------

  class MockConnection {
    const manager: SessionManager
    const overflowChecks: bool
    var replies: Store
    var requests: Store

    ghost predicate Valid()
      reads this, manager, manager.sender, manager.duplexChannels.Values
    {
      manager.Valid() && Keyed(replies)
    }

    ghost function Contents(): Stores
      reads this
    {
      Stores(replies, requests)
    }

    constructor (manager: SessionManager, overflowChecks: bool)
      requires manager.Valid()
      ensures Valid() && this.manager == manager && this.overflowChecks == overflowChecks
      ensures replies == map[] && requests == map[]
    {
      this.manager := manager;
      this.overflowChecks := overflowChecks;
      replies := map[];
      requests := map[];
    }

    /** `add_reply`: an older reply under the same key is replaced. */
    method AddReply(reply: Packet)
      requires Valid()
      modifies this`replies
      ensures Valid() && replies == Stored(old(replies), reply)
    {
      hide SessionManager.Valid, Keyed;
      StoredIsKeyed(replies, reply);
      var id := reply.header.sessionId;
      if id !in replies {
        replies := replies[id := map[]];
      }
      var list: map<byte, Packet> := replies[id];
      replies := replies[id := list[reply.header.seqNo := reply]];
      assert replies == Stored(old(replies), reply);
    }

    method AddAccountingReply(sessionId: u32, replyNumber: byte, reply: Replies.AccountingReply)
      requires Valid()
      modifies this`replies
      ensures Valid() && replies == Stored(old(replies), ReplyPacket(sessionId, replyNumber, reply))
    {
      hide *;
      AddReply(ReplyPacket(sessionId, replyNumber, reply));
    }

    method TakeReply(id: u32, n: byte) returns (r: Option<Packet>)
      modifies this`replies
      ensures r == Lookup(old(replies), id, n)
      ensures replies == if r.Some? then Removed(old(replies), id, n) else old(replies)
    {
      if id !in replies {
        return None;
      }
      var list := replies[id];
      if n !in list {
        return None;
      }
      replies := replies[id := list - {n}];
      r := Some(list[n]);
    }

    method RecordRequest(request: Packet)
      modifies this`requests
      ensures requests == Stored(old(requests), request)
    {
      var id := request.header.sessionId;
      if id !in requests {
        requests := requests[id := map[]];
      }
      var list: map<byte, Packet> := requests[id];
      requests := requests[id := list[request.header.seqNo := request]];
    }

    /** One iteration of the handler: a request taken from the outbound queue
        fetches its reply, is recorded, and has it delivered.  A panic drops
        the receiver of the outbound channel. */
    method HandleRequest(request: Packet) returns (r: HandlerProgress)
      requires Valid()
      modifies this`replies, this`requests, manager.duplexChannels.Values`queue
      modifies manager.sender`queue, manager.sender`receiverOpen
      ensures Valid()
      ensures Served(Contents(), manager.Mailboxes(), r)
           == ServeOne(overflowChecks, old(Contents()), old(manager.Mailboxes()), request)
      ensures manager.sender.queue == if r == HandlerPanicked then [] else old(manager.sender.queue)
      ensures manager.sender.receiverOpen == (old(manager.sender.receiverOpen) && r != HandlerPanicked)
    {
      hide Route, Verdict, Stored, Removed, Lookup, Keyed, SessionManager.Mailboxes;
      if request.header.seqNo == 0xff && overflowChecks {
        manager.sender.CloseReceiver();
        return HandlerPanicked;
      }
      var n := (request.header.seqNo + 1) % 0x100;
      var reply := TakeReply(request.header.sessionId, n);
      if reply.None? {
        return Listening;
      }
      assert Keyed(replies) by {
        assert request.header.sessionId in old(replies) by {
          LookedUpIsThere(old(replies), request.header.sessionId, n);
        }
        RemovedIsKeyed(old(replies), request.header.sessionId, n);
      }
      RecordRequest(request);
      r := Deliver(reply.value);
    }

    /** The delivery, also where a stalled one goes on: the stores stay as they
        are. */
    method Deliver(reply: Packet) returns (r: HandlerProgress)
      requires manager.Valid()
      modifies manager.duplexChannels.Values`queue
      ensures manager.Valid()
      ensures r == if Verdict(old(manager.Mailboxes()), reply) == MustWait then Stalled(reply) else Listening
      ensures manager.Mailboxes() == Route(old(manager.Mailboxes()), reply)
    {
      hide Route, Verdict, SessionManager.Mailboxes;
      var sent := manager.SendMessageToSession(reply);
      r := if sent == MustWait then Stalled(reply) else Listening;
    }

    /** The handler's loop: request after request is handled until the queue is
        empty, a delivery has to wait or an overflow panics.  It never sees the
        end of the channel, of which the manager keeps a sender. */
    method Poll() returns (r: HandlerProgress)
      requires Valid()
      modifies this`replies, this`requests, manager.duplexChannels.Values`queue
      modifies manager.sender`queue, manager.sender`receiverOpen
      ensures Valid()
      ensures Served(Contents(), manager.Mailboxes(), r)
           == Serve(overflowChecks, old(Contents()), old(manager.Mailboxes()), old(manager.sender.queue))
      ensures manager.sender.queue
           == if r == HandlerPanicked then []
              else Behind(overflowChecks, old(Contents()), old(manager.Mailboxes()), old(manager.sender.queue))
      ensures manager.sender.receiverOpen == (old(manager.sender.receiverOpen) && r != HandlerPanicked)
    {
      hide Keyed, Serve, ServeOne, SessionManager.Mailboxes;
      ghost var s, boxes, all := Contents(), manager.Mailboxes(), manager.sender.queue;
      NothingServed(overflowChecks, s, boxes);
      ghost var taken: seq<Packet> := [];
      while true
        invariant Valid() && manager.sender.receiverOpen == old(manager.sender.receiverOpen)
        invariant taken + manager.sender.queue == all
        invariant Served(Contents(), manager.Mailboxes(), Listening) == Serve(overflowChecks, s, boxes, taken)
        decreases |manager.sender.queue|
      {
        ghost var queue := manager.sender.queue;
        var received := manager.sender.Receive();
        if !received.Got? {
          assert taken == all;
          NothingBehind(overflowChecks, s, boxes, all);
          return Listening;
        }
        ServeOneMore(overflowChecks, s, boxes, taken, received.packet);
        r := HandleRequest(received.packet);
        assert taken + [received.packet] + queue[1..] == all;
        if r != Listening {
          StopsAt(overflowChecks, s, boxes, taken, received.packet, queue[1..]);
          return r;
        }
        taken := taken + [received.packet];
      }
    }
  }
}
