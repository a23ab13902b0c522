/** Runs in which somebody waits: calls whose reply will not come, and a read
    loop held up by one full session. */
module ConnectionStalls {
  import opened Primitives
  import opened Framing
  import opened ConnectionSystem
  import opened CallInvariants
  import opened ConnectionInvariants
  import opened ConnectionRuns
  import Replies = AccountingReplies
  import Channels
  import Sessions

  // ---------- After the read loop has ended ----------

  predicate Quiet(s: State, id: u32) {
    s.reader.ReaderEnded? && id in s.sessions && s.sessions[id].queue == []
  }

  /** The call has its reply in hand. */
  predicate HasReply(phase: Phase) {
    phase.Parsed? || phase.Completed? || phase.ReturnedOk?
  }

  lemma QuietMove(v: View, c: nat, call: Call, session: Session, step: CallStep, m: Move)
    requires session.queue == [] && CallMove(v, c, call, session, step) == Some(m)
    ensures m.session.queue == []
    ensures !HasReply(call.phase) ==> !HasReply(m.call.phase)
    ensures call.phase.Holding? && v.alive ==> step == Cancel
  {
    hide Sessions.RequestPacket, Replies.Decoding;
  }

  /** What a step does to a call on a quiet session. */
  predicate QuietKept(s: State, t: State, id: u32, c: nat, cancelled: bool) {
    && id in t.sessions && t.sessions[id].queue == []
    && (c in t.calls && t.calls[c].id == id ==> !HasReply(t.calls[c].phase))
    && (c in s.calls ==> c in t.calls && t.calls[c].id == id)
    && (t.alive ==> s.alive)
    && (c in s.calls && s.calls[c].phase.Holding? && s.alive && !cancelled ==> t.calls[c].phase.Holding?)
  }

  lemma QuietCall(s: State, d: nat, a: CallStep, t: State, id: u32, c: nat)
    requires id in s.sessions && s.sessions[id].queue == [] && CallApply(s, d, a) == Some(t)
    requires c in s.calls ==> s.calls[c].id == id && !HasReply(s.calls[c].phase)
    ensures QuietKept(s, t, id, c, d == c && a == Cancel)
  {
    hide CallMove;
    if !a.Begin? {
      var call, session := s.calls[d], s.sessions[s.calls[d].id];
      var m := CallMove(ViewOf(s), d, call, session, a).value;
      MoveKeepsId(ViewOf(s), d, call, session, a, m);
      if call.id == id {
        QuietMove(ViewOf(s), d, call, session, a, m);
      }
    }
  }

  lemma OwnersKeepQueues(s: State, step: OwnerStep, t: State)
    requires OwnerApply(s, step) == Some(t)
    ensures forall id :: id in s.sessions ==>
              id in t.sessions && (s.sessions[id].queue == [] ==> t.sessions[id].queue == [])
    ensures t.alive ==> s.alive
  {
  }

  lemma QuietStep(cfg: Config, s: State, step: Step, t: State, id: u32, c: nat)
    requires Quiet(s, id) && Apply(cfg, s, step) == Some(t)
    requires c in s.calls ==> s.calls[c].id == id && !HasReply(s.calls[c].phase)
    ensures Quiet(t, id) && QuietKept(s, t, id, c, step == OfCall(c, Cancel))
  {
    hide ReaderApply, WriterApply, CreatorApply, CallApply, OwnerApply;
    var u := Act(cfg, s, step).value;
    match step
    case OfCall(d, a) =>
      QuietCall(s, d, a, u, id, c);
      CallsAdvanceSessions(s, d, a, u);
    case OfReader(r) => ReaderFrame(cfg, s, r, u);
    case OfWriter(w) => WriterFrame(cfg, s, w, u);
    case OfCreator(k, n) => CreatorFrame(s, k, n, u);
    case OfOwner(o) =>
      OwnerFrame(s, o, u);
      OwnersKeepQueues(s, o, u);
  }

  /** The end of the read loop wakes nobody: once it has ended and a session's
      queue is empty, no call on that session that has no reply yet ever
      returns Ok; and a call that waits with the receiver locked goes on
      waiting, whatever else happens, until it is cancelled or the connection
      object is gone. */
  lemma {:induction false} NothingArrivesAfterTheEnd(cfg: Config, steps: seq<Step>, n: nat, id: u32, c: nat)
    requires Run(cfg, steps).Some? && n <= |steps| && Run(cfg, steps[..n]).Some?
    requires var u := Run(cfg, steps[..n]).value;
             && Quiet(u, id) && c in u.calls && u.calls[c].id == id && !HasReply(u.calls[c].phase)
    ensures var u, s := Run(cfg, steps[..n]).value, Run(cfg, steps).value;
            && Quiet(s, id) && c in s.calls && s.calls[c].id == id && !HasReply(s.calls[c].phase)
            && (u.calls[c].phase.Holding? && s.alive && OfCall(c, Cancel) !in steps[n..] ==>
                  s.calls[c].phase.Holding?)
    decreases |steps|
  {
    hide Apply, Quiet, HasReply;
    if n == |steps| {
      assert steps[..n] == steps;
    } else {
      var init, last := steps[..|steps| - 1], steps[|steps| - 1];
      assert init[..n] == steps[..n];
      assert steps[n..] == init[n..] + [last];
      NothingArrivesAfterTheEnd(cfg, init, n, id, c);
      QuietStep(cfg, Run(cfg, init).value, last, Run(cfg, steps).value, id, c);
    }
  }

  /** When a waiting call with an empty queue can go on at all: its receive is
      enabled exactly once the connection object is gone, and then it fails and
      lets go of the receiver. */
  lemma WaitingCallWakes(cfg: Config, s: State, c: nat)
    requires c in s.calls && s.calls[c].id in s.sessions
    requires s.calls[c].phase.Holding? && s.sessions[s.calls[c].id].queue == []
    ensures Apply(cfg, s, OfCall(c, Receive)).Some? <==> !s.alive
    ensures !s.alive ==>
              var t := Apply(cfg, s, OfCall(c, Receive)).value;
              t.calls[c].phase.Failed? && t.sessions[s.calls[c].id].holder == None
  {
  }

  // ---------- Head-of-line blocking ----------

  /** The read loop waits for room in the queue of this session. */
  predicate HeldUp(s: State, id: u32) {
    && s.reader.Delivering? && s.reader.packet.header.sessionId == id
    && id in s.sessions && s.sessions[id].open && |s.sessions[id].queue| == Channels.CAPACITY
  }

  /** The step makes room in the session's queue or drops the session. */
  predicate Relieves(s: State, step: Step, id: u32) {
    || step == OfOwner(DropSession(id))
    || (step.OfCall? && step.a == Receive && step.c in s.calls && s.calls[step.c].id == id)
  }

  /** Nothing is read, routed or registered. */
  predicate Standstill(s: State, t: State) {
    && t.reader == s.reader && t.unread == s.unread && t.routed == s.routed
    && t.sessions.Keys == s.sessions.Keys
  }

  lemma OnlyReceivesDrain(v: View, c: nat, call: Call, session: Session, step: CallStep, m: Move)
    requires CallMove(v, c, call, session, step) == Some(m) && step != Receive
    ensures m.session.queue == session.queue
  {
    hide Sessions.RequestPacket;
  }

  lemma HeldUpCall(s: State, c: nat, a: CallStep, t: State, id: u32)
    requires HeldUp(s, id) && CallApply(s, c, a) == Some(t) && !Relieves(s, OfCall(c, a), id)
    ensures HeldUp(t, id) && Standstill(s, t)
  {
    hide CallMove;
    CallsAdvanceSessions(s, c, a, t);
    if !a.Begin? {
      var call, session := s.calls[c], s.sessions[s.calls[c].id];
      var m := CallMove(ViewOf(s), c, call, session, a).value;
      MoveKeepsId(ViewOf(s), c, call, session, a, m);
      if call.id == id {
        OnlyReceivesDrain(ViewOf(s), c, call, session, a, m);
      }
    }
  }

  lemma HeldUpReader(cfg: Config, s: State, r: ReaderStep, id: u32)
    requires HeldUp(s, id)
    ensures ReaderApply(cfg, s, r) == None
  {
    hide NextFrame, Open;
  }

  lemma HeldUpCreator(s: State, k: nat, n: CreatorStep, t: State, id: u32)
    requires HeldUp(s, id) && CreatorApply(s, k, n) == Some(t)
    ensures t.reader == s.reader && t.unread == s.unread && t.routed == s.routed && t.sessions == s.sessions
  {
  }

  lemma HeldUpOwner(s: State, o: OwnerStep, t: State, id: u32)
    requires HeldUp(s, id) && OwnerApply(s, o) == Some(t) && o != DropSession(id)
    ensures HeldUp(t, id) && Standstill(s, t)
  {
  }

  lemma HeldUpStep(cfg: Config, s: State, step: Step, t: State, id: u32)
    requires HeldUp(s, id) && Apply(cfg, s, step) == Some(t) && !Relieves(s, step, id)
    ensures HeldUp(t, id) && Standstill(s, t)
  {
    hide ReaderApply, WriterApply, CreatorApply, CallApply, OwnerApply;
    var u := Act(cfg, s, step).value;
    match step
    case OfCall(c, a) => HeldUpCall(s, c, a, u, id);
    case OfReader(r) => HeldUpReader(cfg, s, r, id);
    case OfWriter(w) => WriterFrame(cfg, s, w, u);
    case OfCreator(k, n) => HeldUpCreator(s, k, n, u, id);
    case OfOwner(o) => HeldUpOwner(s, o, u, id);
  }

  /** Head-of-line blocking: while the read loop waits for room in one
      session's queue, no session at all is read for, routed to or registered,
      whatever else runs, until a call of that session receives or the session
      is dropped. */
  lemma {:induction false} OneFullSessionStopsAll(cfg: Config, steps: seq<Step>, n: nat, id: u32)
    requires Run(cfg, steps).Some? && n <= |steps| && Run(cfg, steps[..n]).Some?
    requires HeldUp(Run(cfg, steps[..n]).value, id)
    ensures || (exists m :: RelievedAt(cfg, steps, n, m, id))
            || (HeldUp(Run(cfg, steps).value, id) && Standstill(Run(cfg, steps[..n]).value, Run(cfg, steps).value))
    decreases |steps|
  {
    hide Apply, HeldUp, Relieves;
    if n == |steps| {
      assert steps[..n] == steps;
    } else {
      var init, last := steps[..|steps| - 1], steps[|steps| - 1];
      assert init[..n] == steps[..n];
      OneFullSessionStopsAll(cfg, init, n, id);
      if m: nat :| RelievedAt(cfg, init, n, m, id) {
        assert init[..m] == steps[..m];
        assert RelievedAt(cfg, steps, n, m, id);
      } else if Relieves(Run(cfg, init).value, last, id) {
        assert RelievedAt(cfg, steps, n, |init|, id);
      } else {
        HeldUpStep(cfg, Run(cfg, init).value, last, Run(cfg, steps).value, id);
      }
    }
  }

  /** Step `m`, not before `n`, relieves the session in the state it finds. */
  predicate RelievedAt(cfg: Config, steps: seq<Step>, n: nat, m: nat, id: u32) {
    n <= m < |steps| && Run(cfg, steps[..m]).Some? && Relieves(Run(cfg, steps[..m]).value, steps[m], id)
  }

  /** The read loop is in the middle of its work and has no step to take. */
  predicate ReadLoopStuck(cfg: Config, s: State) {
    !s.reader.ReaderEnded? && forall r :: ReaderApply(cfg, s, r) == None
  }

  lemma StuckMeansHeldUp(cfg: Config, s: State)
    requires RoutingOk(cfg, s)
    ensures ReadLoopStuck(cfg, s) <==> exists id :: HeldUp(s, id)
  {
    hide Open, NextFrame, Decode, OfSession;
    if ReadLoopStuck(cfg, s) {
      assert ReaderApply(cfg, s, ReadFails) == None && ReaderApply(cfg, s, LookUp) == None;
      assert ReaderApply(cfg, s, Deliver) == None;
      var id := s.reader.packet.header.sessionId;
      assert SessionRouted(s.sessions[id], id, s.routed);
      assert HeldUp(s, id);
    }
    if id :| HeldUp(s, id) {
      forall r ensures ReaderApply(cfg, s, r) == None {
        HeldUpReader(cfg, s, r, id);
      }
    }
  }

  /** In every run a full queue of an open session is the one thing that stops
      the read loop: it has no step to take if and only if it is delivering to
      such a session. */
  lemma OnlyFullQueuesHoldUp(cfg: Config, steps: seq<Step>)
    requires Run(cfg, steps).Some?
    ensures ReadLoopStuck(cfg, Run(cfg, steps).value) <==> exists id :: HeldUp(Run(cfg, steps).value, id)
  {
    hide Exec, ReadLoopStuck, HeldUp, RoutingOk, CallsOk;
    RunKeepsInv(cfg, steps);
    StuckMeansHeldUp(cfg, Run(cfg, steps).value);
  }

  /** One step is enough to set the loop going again, and these are exactly
      the steps: a receive on the session or the drop of it. */
  lemma ReliefIsExact(cfg: Config, s: State, step: Step, t: State, id: u32)
    requires HeldUp(s, id) && Apply(cfg, s, step) == Some(t)
    ensures ReaderApply(cfg, t, Deliver).Some? <==> Relieves(s, step, id)
  {
    if Relieves(s, step, id) {
      ReliefFrees(cfg, s, step, t, id);
    } else {
      hide Apply, HeldUp, Relieves;
      HeldUpStep(cfg, s, step, t, id);
      HeldUpReader(cfg, t, Deliver, id);
    }
  }

  lemma ReliefFrees(cfg: Config, s: State, step: Step, t: State, id: u32)
    requires HeldUp(s, id) && Apply(cfg, s, step) == Some(t) && Relieves(s, step, id)
    ensures ReaderApply(cfg, t, Deliver).Some?
  {
    hide Replies.Decoding, Open, NextFrame;
  }
}
