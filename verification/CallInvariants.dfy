/** What concurrent `send_accounting_request` calls keep: who holds the
    receiver of a session, in which order its locks were taken, when the
    session becomes complete, and which packet answered which call. */
module CallInvariants {
  import opened Primitives
  import opened Packets
  import opened ConnectionSystem
  import Replies = AccountingReplies
  import Sessions

  // ---------- One call and its session ----------

  predicate TookItsReply(call: Call, session: Session, reply: Replies.AccountingReply) {
    && call.took.Some? && call.took.value < |session.consumed|
    && Replies.Decoding(session.consumed[call.took.value].body) == Success(reply)
  }

  /** The stamps of a call are in the order of its phases, all in the past. */
  predicate StampsOk(call: Call, clock: nat) {
    && call.begunAt < clock
    && (call.probedAt.Some? ==> call.begunAt < call.probedAt.value < clock)
    && (call.passed ==> call.probedAt.Some?)
    && (call.lockedAt.Some? ==> call.passed && call.probedAt.value < call.lockedAt.value < clock)
    && (call.endedAt.Some? ==> call.endedAt.value < clock)
    && (call.endedAt.Some? && call.lockedAt.Some? ==> call.lockedAt.value < call.endedAt.value)
  }

  predicate PhaseOk(call: Call) {
    && (call.phase.Begun? || call.phase.SenderOpen? ==> call.probedAt.None?)
    && (call.phase.ReceiverOpen? ==> call.probedAt.Some? && !call.passed)
    && (call.phase.Passed? || call.phase.Ready? || call.phase.Sent? ==> call.passed && call.lockedAt.None?)
    && (call.phase.HoldsReceiver() || call.phase.Succeeded() ==> call.lockedAt.Some?)
    && (call.phase.Over() <==> call.endedAt.Some?)
  }

  /** The packet of a call, under the number of its draw. */
  function NumberedPacket(call: Call): Packet
    requires call.number.Some?
  {
    Sessions.RequestPacket(call.id, Sessions.SequenceNumberAt(call.number.value), call.request)
  }

  /** A numbered call has its own draw, and its packet bears that number. */
  predicate NumberOk(call: Call, session: Session) {
    && (call.phase.Begun? || call.phase.SenderOpen? || call.phase.ReceiverOpen? || call.phase.Passed? ==>
          call.number.None?)
    && (call.number.Some? ==> call.number.value < session.numbered)
    && (call.phase.Ready? ==>
          call.number.Some? && call.phase.packet == NumberedPacket(call))
  }

  /** The counter of a session stands where its draws have taken it. */
  predicate CounterOk(session: Session) {
    session.nextSeq == Sessions.SequenceNumberAt(session.numbered)
  }

  predicate CallOk(c: nat, call: Call, session: Session, clock: nat) {
    && StampsOk(call, clock)
    && PhaseOk(call)
    && NumberOk(call, session)
    && (call.phase.HoldsReceiver() ==> session.holder == Some(c))
    && (call.phase.Succeeded() ==> session.complete)
    && (call.took.Some? ==> call.took.value < |session.consumed|)
    && (call.phase.Parsed? || call.phase.Completed? || call.phase.ReturnedOk? ==>
          TookItsReply(call, session, call.phase.reply))
  }

  /** Everything about a call survives a session that keeps its holder, its
      completion and what it has received so far. */
  lemma CallSurvives(c: nat, call: Call, was: Session, now: Session, clock: nat, later: nat)
    requires CallOk(c, call, was, clock) && clock <= later
    requires call.phase.HoldsReceiver() ==> now.holder == was.holder
    requires was.complete ==> now.complete
    requires was.consumed <= now.consumed && was.numbered <= now.numbered
    ensures CallOk(c, call, now, later)
  {
    hide Replies.Decoding, Sessions.RequestPacket, Sessions.SequenceNumberAt;
  }

  lemma MoveKeepsStamps(v: View, c: nat, call: Call, session: Session, step: CallStep, m: Move)
    requires StampsOk(call, v.clock) && PhaseOk(call) && CallMove(v, c, call, session, step) == Some(m)
    ensures StampsOk(m.call, v.clock + 1) && PhaseOk(m.call)
  {
    hide Sessions.RequestPacket, Replies.Decoding;
  }

  lemma MoveKeepsNumber(v: View, c: nat, call: Call, session: Session, step: CallStep, m: Move)
    requires NumberOk(call, session) && CounterOk(session) && CallMove(v, c, call, session, step) == Some(m)
    ensures NumberOk(m.call, m.session) && CounterOk(m.session)
  {
    hide Sessions.RequestPacket, Replies.Decoding;
  }

  lemma ReceivingKeepsReply(v: View, call: Call, session: Session, m: Move)
    requires session.queue != [] && Received(v, call, session) == Some(m)
    ensures m.call.took.Some? && m.call.took.value < |m.session.consumed|
    ensures m.call.phase.Parsed? || m.call.phase.Failed?
    ensures m.call.phase.Parsed? ==> TookItsReply(m.call, m.session, m.call.phase.reply)
    ensures m.call.phase.Parsed? ==> m.session.holder == session.holder
  {
    hide Replies.Decoding;
  }

  lemma MoveKeepsCall(v: View, c: nat, call: Call, session: Session, step: CallStep, m: Move)
    requires CallOk(c, call, session, v.clock) && CounterOk(session)
    requires CallMove(v, c, call, session, step) == Some(m)
    ensures CallOk(c, m.call, m.session, v.clock + 1) && CounterOk(m.session)
  {
    hide Received, Sessions.RequestPacket, Replies.Decoding, StampsOk, PhaseOk, NumberOk, CounterOk;
    MoveKeepsStamps(v, c, call, session, step, m);
    MoveKeepsNumber(v, c, call, session, step, m);
    if step.Receive? && session.queue != [] {
      ReceivingKeepsReply(v, call, session, m);
    }
  }

  // ---------- Two calls on one session ----------

  /** A call that took its read lock did so before the present holder of the
      receiver took the write lock; a call that passed the completion check
      did so before any call that has completed the session. */
  predicate Ordered(call: Call, other: Call) {
    call.probedAt.Some? && other.lockedAt.Some?
    && (other.phase.HoldsReceiver() || (call.passed && other.phase.Succeeded()))
    ==> call.probedAt.value < other.lockedAt.value
  }

  predicate PairOk(call: Call, other: Call) {
    && Ordered(call, other)
    && Ordered(other, call)
    && (call.took.Some? ==> call.took != other.took)
    && (call.number.Some? ==> call.number != other.number)
  }

  /** How a step of call `c` may change the lock: it takes a free one, lets go
      of its own, or leaves it. */
  lemma MoveRespectsLock(v: View, c: nat, call: Call, session: Session, step: CallStep, m: Move)
    requires CallOk(c, call, session, v.clock) && CallMove(v, c, call, session, step) == Some(m)
    ensures || m.session.holder == session.holder
            || (session.holder == None && m.session.holder == Some(c))
            || (session.holder == Some(c) && m.session.holder == None)
    ensures m.call.phase.HoldsReceiver() ==> m.session.holder == Some(c)
    ensures session.holder == Some(c) && call.phase.HoldsReceiver() && m.session.holder == Some(c) ==>
              m.call.phase.HoldsReceiver()
    ensures m.session.holder == Some(c) && session.holder != Some(c) ==> m.call.phase.HoldsReceiver()
  {
    hide Sessions.RequestPacket, Replies.Decoding;
  }

  lemma MoveOnlyAdds(v: View, c: nat, call: Call, session: Session, step: CallStep, m: Move)
    requires CallMove(v, c, call, session, step) == Some(m)
    ensures session.complete ==> m.session.complete
    ensures session.consumed <= m.session.consumed && session.numbered <= m.session.numbered
  {
    hide Sessions.RequestPacket, Replies.Decoding;
  }

  lemma MoveKeepsPair(v: View, c: nat, call: Call, d: nat, other: Call, session: Session, step: CallStep, m: Move)
    requires c != d && CallOk(c, call, session, v.clock) && CallOk(d, other, session, v.clock)
    requires PairOk(call, other) && CallMove(v, c, call, session, step) == Some(m)
    ensures PairOk(m.call, other)
  {
    hide Sessions.RequestPacket, Replies.Decoding;
  }

  // ---------- All calls ----------

  predicate HolderOk(s: State, id: u32)
    requires id in s.sessions
  {
    var holder := s.sessions[id].holder;
    holder.Some? ==>
      holder.value in s.calls && s.calls[holder.value].id == id && s.calls[holder.value].phase.HoldsReceiver()
  }

  predicate OneOk(s: State, c: nat)
    requires c in s.calls
  {
    s.calls[c].id in s.sessions && CallOk(c, s.calls[c], s.sessions[s.calls[c].id], s.clock)
  }

  predicate TwoOk(s: State, c: nat, d: nat)
    requires c in s.calls && d in s.calls
  {
    c != d && s.calls[c].id == s.calls[d].id ==> PairOk(s.calls[c], s.calls[d])
  }

  predicate CallsOk(s: State) {
    && (forall c :: c in s.calls ==> OneOk(s, c))
    && (forall c, d :: c in s.calls && d in s.calls ==> TwoOk(s, c, d))
    && (forall id :: id in s.sessions ==> HolderOk(s, id) && CounterOk(s.sessions[id]))
  }

  /** Steps that are nobody's call leave what calls depend on alone. */
  lemma OthersKeepCalls(s: State, t: State)
    requires CallsOk(s) && t.calls == s.calls && t.clock == s.clock + 1
    requires forall id :: id in s.sessions ==>
               && id in t.sessions
               && t.sessions[id].holder == s.sessions[id].holder
               && (s.sessions[id].complete ==> t.sessions[id].complete)
               && t.sessions[id].consumed == s.sessions[id].consumed
               && s.sessions[id].numbered <= t.sessions[id].numbered
               && (CounterOk(s.sessions[id]) ==> CounterOk(t.sessions[id]))
    requires forall id :: id in t.sessions && id !in s.sessions ==>
               t.sessions[id].holder == None && CounterOk(t.sessions[id])
    ensures CallsOk(t)
  {
    hide CallOk, PairOk;
    forall c | c in t.calls
      ensures OneOk(t, c)
    {
      assert OneOk(s, c);
      var id := s.calls[c].id;
      CallSurvives(c, s.calls[c], s.sessions[id], t.sessions[id], s.clock, t.clock);
    }
    forall c, d | c in t.calls && d in t.calls
      ensures TwoOk(t, c, d)
    {
      assert TwoOk(s, c, d);
    }
    forall id | id in t.sessions
      ensures HolderOk(t, id) && CounterOk(t.sessions[id])
    {
      if id in s.sessions {
        assert HolderOk(s, id);
      }
    }
  }

  lemma BeginKeepsCalls(s: State, c: nat, step: CallStep, u: State, t: State)
    requires CallsOk(s) && step.Begin? && CallApply(s, c, step) == Some(u) && t == u.(clock := s.clock + 1)
    ensures CallsOk(t)
  {
    forall x | x in t.calls
      ensures OneOk(t, x)
    {
      if x != c {
        assert OneOk(s, x);
        var id := s.calls[x].id;
        CallSurvives(x, s.calls[x], s.sessions[id], t.sessions[id], s.clock, t.clock);
      }
    }
    forall x, y | x in t.calls && y in t.calls
      ensures TwoOk(t, x, y)
    {
      if x != c && y != c {
        assert TwoOk(s, x, y);
      }
    }
    forall id | id in t.sessions
      ensures HolderOk(t, id) && CounterOk(t.sessions[id])
    {
      assert HolderOk(s, id);
    }
  }

  lemma MoveKeepsCalls(s: State, c: nat, step: CallStep, u: State, t: State)
    requires CallsOk(s) && !step.Begin? && CallApply(s, c, step) == Some(u) && t == u.(clock := s.clock + 1)
    ensures CallsOk(t)
  {
    hide CallOk, PairOk, CallMove;
    var call, v := s.calls[c], ViewOf(s);
    var id, session := call.id, s.sessions[call.id];
    var m := CallMove(v, c, call, session, step).value;
    assert OneOk(s, c) && HolderOk(s, id) && CounterOk(session);
    MoveKeepsCall(v, c, call, session, step, m);
    MoveRespectsLock(v, c, call, session, step, m);
    MoveOnlyAdds(v, c, call, session, step, m);
    assert m.call.id == id by {
      MoveKeepsId(v, c, call, session, step, m);
    }
    forall x | x in t.calls
      ensures OneOk(t, x)
    {
      if x != c {
        assert OneOk(s, x);
        var was, now := s.sessions[s.calls[x].id], t.sessions[s.calls[x].id];
        HolderIsUnique(x, s.calls[x], was, s.clock);
        CallSurvives(x, s.calls[x], was, now, s.clock, t.clock);
      }
    }
    forall x, y | x in t.calls && y in t.calls
      ensures TwoOk(t, x, y)
    {
      assert x in s.calls && y in s.calls && TwoOk(s, x, y) && OneOk(s, x) && OneOk(s, y);
      if x != y && s.calls[x].id == s.calls[y].id {
        PairIsSymmetric(s.calls[x], s.calls[y]);
        if x == c {
          MoveKeepsPair(v, c, call, y, s.calls[y], session, step, m);
        } else if y == c {
          MoveKeepsPair(v, c, call, x, s.calls[x], session, step, m);
          PairIsSymmetric(m.call, s.calls[x]);
        }
      }
    }
    forall i | i in t.sessions
      ensures HolderOk(t, i) && CounterOk(t.sessions[i])
    {
      assert HolderOk(s, i);
    }
  }

  lemma MoveKeepsId(v: View, c: nat, call: Call, session: Session, step: CallStep, m: Move)
    requires CallMove(v, c, call, session, step) == Some(m)
    ensures m.call.id == call.id && m.call.request == call.request && m.call.begunAt == call.begunAt
  {
    hide Sessions.RequestPacket, Replies.Decoding;
  }

  lemma HolderIsUnique(c: nat, call: Call, session: Session, clock: nat)
    requires CallOk(c, call, session, clock)
    ensures call.phase.HoldsReceiver() ==> session.holder == Some(c)
  {
  }

  lemma PairIsSymmetric(call: Call, other: Call)
    ensures PairOk(call, other) <==> PairOk(other, call)
  {
  }

  // ---------- Why a session is complete ----------

  predicate Completer(s: State, id: u32, c: nat) {
    c in s.calls && s.calls[c].id == id && s.calls[c].phase.Succeeded()
  }

  ghost predicate HasCompleter(s: State, id: u32) {
    exists c :: Completer(s, id, c)
  }

  /** A session is complete only because some call got a reply on it or its
      holder marked it so, and the mark never goes. */
  ghost predicate CompletionsOk(s: State) {
    forall id :: id in s.sessions ==>
      && (s.sessions[id].marked ==> s.sessions[id].complete)
      && (s.sessions[id].complete && !s.sessions[id].marked ==> HasCompleter(s, id))
  }

  /** Outside the calls, a session is either marked complete or keeps both. */
  predicate MarkKept(was: Session, now: Session) {
    (now.complete && now.marked) || (now.complete == was.complete && now.marked == was.marked)
  }

  lemma MoveCompletes(v: View, c: nat, call: Call, session: Session, step: CallStep, m: Move)
    requires CallMove(v, c, call, session, step) == Some(m)
    ensures call.phase.Succeeded() ==> m.call.phase.Succeeded()
    ensures m.session.complete && !session.complete ==> m.call.phase.Succeeded()
    ensures session.complete ==> m.session.complete
    ensures m.session.marked == session.marked
  {
    hide Sessions.RequestPacket, Replies.Decoding;
  }

  lemma OthersKeepCompletions(s: State, t: State)
    requires CompletionsOk(s) && t.calls == s.calls
    requires forall id :: id in t.sessions ==>
               if id in s.sessions then MarkKept(s.sessions[id], t.sessions[id])
               else !t.sessions[id].complete && !t.sessions[id].marked
    ensures CompletionsOk(t)
  {
    forall id | id in t.sessions && t.sessions[id].complete && !t.sessions[id].marked
      ensures HasCompleter(t, id)
    {
      assert HasCompleter(s, id);
      var c :| Completer(s, id, c);
      assert Completer(t, id, c);
    }
  }

  lemma CallKeepsCompletions(s: State, c: nat, step: CallStep, t: State)
    requires CompletionsOk(s) && CallApply(s, c, step) == Some(t)
    ensures CompletionsOk(t)
  {
    hide CallMove;
    if !step.Begin? {
      var call, session := s.calls[c], s.sessions[s.calls[c].id];
      var m := CallMove(ViewOf(s), c, call, session, step).value;
      MoveCompletes(ViewOf(s), c, call, session, step, m);
      MoveKeepsId(ViewOf(s), c, call, session, step, m);
    }
    forall id | id in t.sessions && t.sessions[id].complete && !t.sessions[id].marked
      ensures HasCompleter(t, id)
    {
      if s.sessions[id].complete {
        assert HasCompleter(s, id);
        var d :| Completer(s, id, d);
        assert Completer(t, id, d);
      } else {
        assert Completer(t, id, c);
      }
    }
  }
}
