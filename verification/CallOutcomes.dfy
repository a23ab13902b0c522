/** How calls end in a run, and what outlives what: why a call is turned away,
    why one fails, and what has to be over before a session or the connection
    can go. */
module CallOutcomes {
  import opened Primitives
  import opened Packets
  import opened Framing
  import opened ConnectionSystem
  import opened CallInvariants
  import opened ConnectionInvariants
  import opened ConnectionRuns
  import Replies = AccountingReplies
  import Requests = AccountingRequests
  import Sessions

  // ---------- The connection winds down ----------

  /** Neither the connection object nor a write loop that is over comes back. */
  predicate WindsDown(s: State, t: State) {
    (t.alive ==> s.alive) && (t.writer.Running() ==> s.writer.Running())
  }

  lemma WriterWindsDown(cfg: Config, s: State, w: WriterStep, t: State)
    requires WriterApply(cfg, s, w) == Some(t)
    ensures t.writer.Running() ==> s.writer.Running()
  {
  }

  lemma OwnerWindsDown(s: State, o: OwnerStep, t: State)
    requires OwnerApply(s, o) == Some(t)
    ensures WindsDown(s, t)
  {
  }

  lemma StepWindsDown(cfg: Config, s: State, step: Step, t: State)
    requires Apply(cfg, s, step) == Some(t)
    ensures WindsDown(s, t)
  {
    hide ReaderApply, WriterApply, CreatorApply, CallApply, OwnerApply;
    var u := Act(cfg, s, step).value;
    match step
    case OfCall(c, a) => CallsAdvanceSessions(s, c, a, u);
    case OfReader(r) => ReaderFrame(cfg, s, r, u);
    case OfWriter(w) => WriterFrame(cfg, s, w, u); WriterWindsDown(cfg, s, w, u);
    case OfCreator(k, n) => CreatorFrame(s, k, n, u);
    case OfOwner(o) => OwnerWindsDown(s, o, u);
  }

  // ---------- Calls that begin too late ----------

  /** The call has not passed the check and will not: the session is complete,
      or a probe that is still ahead of it finds its channel closed. */
  predicate Doomed(v: View, call: Call, session: Session) {
    && !call.passed && call.number.None?
    && match call.phase
       case Begun => session.complete || !v.running || !v.alive
       case SenderOpen => session.complete || !v.alive
       case ReceiverOpen => session.complete
       case Failed => true
       case _ => false
  }

  lemma DoomedMove(v: View, c: nat, call: Call, session: Session, step: CallStep, m: Move)
    requires Doomed(v, call, session) && CallMove(v, c, call, session, step) == Some(m)
    ensures Doomed(v, m.call, m.session)
  {
    hide Received, Sessions.RequestPacket;
  }

  lemma DoomedLater(v: View, w: View, call: Call, was: Session, now: Session)
    requires Doomed(v, call, was) && (was.complete ==> now.complete)
    requires (w.alive ==> v.alive) && (w.running ==> v.running)
    ensures Doomed(w, call, now)
  {
  }

  /** Nobody gets past the check of this session any more. */
  predicate Closed(s: State, id: u32) {
    id in s.sessions && (s.sessions[id].complete || !s.writer.Running() || !s.alive)
  }

  predicate DoomedCall(s: State, id: u32, c: nat) {
    c in s.calls && s.calls[c].id == id ==> id in s.sessions && Doomed(ViewOf(s), s.calls[c], s.sessions[id])
  }

  lemma DoomedByCall(s: State, d: nat, a: CallStep, u: State, id: u32, c: nat)
    requires Closed(s, id) && DoomedCall(s, id, c) && CallApply(s, d, a) == Some(u)
    requires u.alive == s.alive && u.writer == s.writer
    requires id in u.sessions && SessionLater(s.sessions[id], u.sessions[id])
    ensures DoomedCall(u, id, c)
  {
    hide CallMove, Doomed;
    if c in u.calls && u.calls[c].id == id {
      if d != c {
        DoomedLater(ViewOf(s), ViewOf(u), s.calls[c], s.sessions[id], u.sessions[id]);
      } else if a.Begin? {
        BegunIsDoomed(ViewOf(u), id, a.request, s.clock, u.sessions[id]);
      } else {
        var m := CallMove(ViewOf(s), c, s.calls[c], s.sessions[s.calls[c].id], a).value;
        MoveKeepsId(ViewOf(s), c, s.calls[c], s.sessions[s.calls[c].id], a, m);
        DoomedMove(ViewOf(s), c, s.calls[c], s.sessions[id], a, m);
        DoomedLater(ViewOf(s), ViewOf(u), m.call, m.session, u.sessions[id]);
      }
    }
  }

  lemma BegunIsDoomed(v: View, id: u32, request: Requests.AccountingRequest, now: nat, session: Session)
    requires session.complete || !v.running || !v.alive
    ensures Doomed(v, NewCall(id, request, now), session)
  {
  }

  lemma DoomedStep(cfg: Config, s: State, step: Step, t: State, id: u32, c: nat)
    requires Closed(s, id) && DoomedCall(s, id, c) && Apply(cfg, s, step) == Some(t) && RegistryOk(s)
    ensures Closed(t, id) && DoomedCall(t, id, c)
  {
    hide ReaderApply, WriterApply, CreatorApply, CallApply, OwnerApply, Doomed, RegistryOk;
    StepWindsDown(cfg, s, step, t);
    StepMovesOn(cfg, s, step, t);
    assert SessionLater(s.sessions[id], t.sessions[id]);
    var u := Act(cfg, s, step).value;
    if step.OfCall? {
      CallsAdvanceSessions(s, step.c, step.a, u);
      DoomedByCall(s, step.c, step.a, u, id, c);
      if c in t.calls && t.calls[c].id == id {
        DoomedLater(ViewOf(u), ViewOf(t), t.calls[c], t.sessions[id], t.sessions[id]);
      }
    } else if c in t.calls && t.calls[c].id == id {
      OthersKeepCall(cfg, s, step, t, c);
      DoomedLater(ViewOf(s), ViewOf(t), t.calls[c], s.sessions[id], t.sessions[id]);
    }
  }

  lemma OthersKeepCall(cfg: Config, s: State, step: Step, t: State, c: nat)
    requires Apply(cfg, s, step) == Some(t) && !step.OfCall?
    ensures t.calls == s.calls
  {
    hide ReaderApply, WriterApply, CreatorApply, CallApply, OwnerApply;
    var u := Act(cfg, s, step).value;
    match step
    case OfReader(r) => ReaderFrame(cfg, s, r, u);
    case OfWriter(w) => WriterFrame(cfg, s, w, u);
    case OfCreator(k, n) => CreatorFrame(s, k, n, u);
    case OfOwner(o) => OwnerFrame(s, o, u);
  }

  /** A call that begins when its session is complete, the write loop is over
      or the connection object is gone never passes the check, draws no number
      and sends nothing. */
  lemma {:induction false} LateCallsNeverPass(cfg: Config, steps: seq<Step>, n: nat, id: u32, c: nat)
    requires Run(cfg, steps).Some? && n <= |steps| && Run(cfg, steps[..n]).Some?
    requires Closed(Run(cfg, steps[..n]).value, id) && c !in Run(cfg, steps[..n]).value.calls
    ensures var s := Run(cfg, steps).value;
            c in s.calls && s.calls[c].id == id ==> !s.calls[c].passed && s.calls[c].number.None?
    ensures Closed(Run(cfg, steps).value, id) && DoomedCall(Run(cfg, steps).value, id, c)
    decreases |steps|
  {
    hide Apply, Closed, RegistryOk;
    if n == |steps| {
      assert steps[..n] == steps;
    } else {
      var init, last := steps[..|steps| - 1], steps[|steps| - 1];
      assert init[..n] == steps[..n];
      LateCallsNeverPass(cfg, init, n, id, c);
      RunKeepsInv(cfg, init);
      DoomedStep(cfg, Run(cfg, init).value, last, Run(cfg, steps).value, id, c);
    }
  }

  // ---------- Why a call fails ----------

  /** What has happened to a call that failed of itself: the packet it took is
      not a reply; or it waited for one until the connection object was gone;
      or it found the write loop over when it sent its packet; or it was turned
      away, by the completion flag or by a channel that had closed. */
  predicate Failure(v: View, call: Call, session: Session) {
    if call.took.Some? then
      && call.took.value < |session.consumed|
      && Replies.Decoding(session.consumed[call.took.value].body).Failure?
    else if call.lockedAt.Some? then !v.alive
    else if call.passed then call.number.Some? && !v.running
    else if call.probedAt.Some? then session.complete
    else !v.running || !v.alive
  }

  predicate ReasonOk(v: View, call: Call, session: Session) {
    && (call.phase.Failed? ==> Failure(v, call, session))
    && (call.phase.Failed? || call.phase.Parsed? || call.phase.Completed? || call.phase.ReturnedOk?
        || call.took.None?)
  }

  lemma MoveKeepsReason(v: View, c: nat, call: Call, session: Session, step: CallStep, m: Move)
    requires ReasonOk(v, call, session) && StampsOk(call, v.clock) && PhaseOk(call) && NumberOk(call, session)
    requires CallMove(v, c, call, session, step) == Some(m) && step != Cancel
    ensures ReasonOk(v, m.call, m.session)
  {
    hide Sessions.RequestPacket, Sessions.SequenceNumberAt, Replies.Decoding;
  }

  lemma ReasonLater(v: View, w: View, call: Call, was: Session, now: Session)
    requires ReasonOk(v, call, was) && (was.complete ==> now.complete) && was.consumed <= now.consumed
    requires (w.alive ==> v.alive) && (w.running ==> v.running)
    ensures ReasonOk(w, call, now)
  {
    hide Replies.Decoding;
  }

  predicate CallReasonOk(s: State, c: nat) {
    c in s.calls ==> s.calls[c].id in s.sessions && ReasonOk(ViewOf(s), s.calls[c], s.sessions[s.calls[c].id])
  }

  lemma ReasonByCall(s: State, d: nat, a: CallStep, u: State, c: nat)
    requires CallsOk(s) && CallReasonOk(s, c) && CallApply(s, d, a) == Some(u) && !(d == c && a == Cancel)
    requires u.alive == s.alive && u.writer == s.writer
    requires forall id :: id in s.sessions ==> id in u.sessions && SessionLater(s.sessions[id], u.sessions[id])
    ensures CallReasonOk(u, c)
  {
    hide CallMove, ReasonOk, CallsOk;
    if c in u.calls {
      if d != c {
        var id := s.calls[c].id;
        ReasonLater(ViewOf(s), ViewOf(u), s.calls[c], s.sessions[id], u.sessions[id]);
      } else if a.Begin? {
        BegunHasReason(ViewOf(u), a.id, a.request, s.clock, u.sessions[a.id]);
      } else {
        var call, session := s.calls[c], s.sessions[s.calls[c].id];
        var m := CallMove(ViewOf(s), c, call, session, a).value;
        MoveKeepsId(ViewOf(s), c, call, session, a, m);
        PhaseOfCall(s, c);
        MoveKeepsReason(ViewOf(s), c, call, session, a, m);
        ReasonLater(ViewOf(s), ViewOf(u), m.call, m.session, u.sessions[call.id]);
      }
    }
  }

  lemma PhaseOfCall(s: State, c: nat)
    requires CallsOk(s) && c in s.calls
    ensures s.calls[c].id in s.sessions
    ensures StampsOk(s.calls[c], s.clock) && PhaseOk(s.calls[c]) && NumberOk(s.calls[c], s.sessions[s.calls[c].id])
  {
    assert OneOk(s, c);
  }

  lemma BegunHasReason(v: View, id: u32, request: Requests.AccountingRequest, now: nat, session: Session)
    ensures ReasonOk(v, NewCall(id, request, now), session)
  {
  }

  lemma ReasonStep(cfg: Config, s: State, step: Step, t: State, c: nat)
    requires CallsOk(s) && RegistryOk(s) && CallReasonOk(s, c)
    requires Apply(cfg, s, step) == Some(t) && step != OfCall(c, Cancel)
    ensures CallReasonOk(t, c)
  {
    hide ReaderApply, WriterApply, CreatorApply, CallApply, OwnerApply, ReasonOk, RegistryOk, CallsOk;
    StepWindsDown(cfg, s, step, t);
    StepMovesOn(cfg, s, step, t);
    if step.OfCall? {
      var u := Act(cfg, s, step).value;
      CallsAdvanceSessions(s, step.c, step.a, u);
      ReasonByCall(s, step.c, step.a, u, c);
      if c in t.calls {
        ReasonLater(ViewOf(u), ViewOf(t), t.calls[c], t.sessions[t.calls[c].id], t.sessions[t.calls[c].id]);
      }
    } else if c in t.calls {
      OthersKeepCall(cfg, s, step, t, c);
      var id := s.calls[c].id;
      assert SessionLater(s.sessions[id], t.sessions[id]);
      ReasonLater(ViewOf(s), ViewOf(t), t.calls[c], s.sessions[id], t.sessions[id]);
    }
  }

  lemma {:induction false} RunHasReasons(cfg: Config, steps: seq<Step>, c: nat)
    requires Run(cfg, steps).Some? && OfCall(c, Cancel) !in steps
    ensures CallReasonOk(Run(cfg, steps).value, c)
  {
    hide Apply, RegistryOk, CallsOk, ReasonOk;
    if steps != [] {
      var init, last := steps[..|steps| - 1], steps[|steps| - 1];
      assert steps == init + [last];
      RunHasReasons(cfg, init, c);
      RunKeepsInv(cfg, init);
      ReasonStep(cfg, Run(cfg, init).value, last, Run(cfg, steps).value, c);
    }
  }

  /** Every call that fails without being cancelled does so for one of five
      reasons, and its stamps tell which. */
  lemma WhyCallsFail(cfg: Config, steps: seq<Step>, c: nat)
    requires Run(cfg, steps).Some? && OfCall(c, Cancel) !in steps
    requires c in Run(cfg, steps).value.calls && Run(cfg, steps).value.calls[c].phase.Failed?
    ensures var s := Run(cfg, steps).value;
            s.calls[c].id in s.sessions && Failure(ViewOf(s), s.calls[c], s.sessions[s.calls[c].id])
  {
    hide Exec, Failure;
    RunHasReasons(cfg, steps, c);
  }

  // ---------- What has to be over first ----------

  /** A session that is dropped has no call under way; and when the connection
      object is gone both loops are over, no session can be created any more
      unless the write loop panicked, and no `create_session` is under way. */
  predicate LifetimesOk(s: State) {
    && (forall c :: c in s.calls ==> CallLifetimeOk(s, c))
    && (!s.alive ==>
          && s.reader.ReaderEnded?
          && ((s.writer.WriterEnded? && !s.accepting) || s.writer.WriterPanicked?)
          && forall k :: k in s.creators ==> s.creators[k].Over())
  }

  predicate CallLifetimeOk(s: State, c: nat)
    requires c in s.calls
  {
    s.calls[c].id in s.sessions && (s.sessions[s.calls[c].id].open || s.calls[c].phase.Over())
  }

  lemma CallKeepsLifetimes(s: State, c: nat, a: CallStep, u: State)
    requires LifetimesOk(s) && CallApply(s, c, a) == Some(u)
    ensures LifetimesOk(u)
  {
    hide CallMove;
    CallsAdvanceSessions(s, c, a, u);
    if !a.Begin? {
      var call, session := s.calls[c], s.sessions[s.calls[c].id];
      var m := CallMove(ViewOf(s), c, call, session, a).value;
      MoveKeepsId(ViewOf(s), c, call, session, a, m);
      OverIsFinal(ViewOf(s), c, call, session, a);
      MoveKeepsOpen(ViewOf(s), c, call, session, a, m);
    }
    forall x | x in u.calls
      ensures CallLifetimeOk(u, x)
    {
      if x in s.calls {
        assert CallLifetimeOk(s, x);
      }
    }
  }

  lemma MoveKeepsOpen(v: View, c: nat, call: Call, session: Session, step: CallStep, m: Move)
    requires CallMove(v, c, call, session, step) == Some(m)
    ensures m.session.open == session.open
  {
    hide Sessions.RequestPacket, Replies.Decoding;
  }

  lemma OwnerKeepsLifetimes(s: State, o: OwnerStep, u: State)
    requires LifetimesOk(s) && OwnerApply(s, o) == Some(u)
    ensures LifetimesOk(u)
  {
    forall c | c in u.calls
      ensures CallLifetimeOk(u, c)
    {
      assert CallLifetimeOk(s, c);
    }
  }

  lemma CreatorKeepsLifetimes(s: State, k: nat, n: CreatorStep, u: State)
    requires LifetimesOk(s) && CreatorApply(s, k, n) == Some(u)
    ensures LifetimesOk(u)
  {
    forall c | c in u.calls
      ensures CallLifetimeOk(u, c)
    {
      assert CallLifetimeOk(s, c);
    }
  }

  lemma ReaderKeepsOpen(cfg: Config, s: State, r: ReaderStep, u: State)
    requires ReaderApply(cfg, s, r) == Some(u)
    ensures u.sessions.Keys == s.sessions.Keys
    ensures forall id :: id in s.sessions ==> u.sessions[id].open == s.sessions[id].open
  {
    hide NextFrame, Open, Accept;
    if r.Deliver? {
      AcceptKeepsOpen(s.sessions[s.reader.packet.header.sessionId], s.reader.packet);
    }
  }

  lemma AcceptKeepsOpen(session: Session, p: Packet)
    ensures Accept(session, p).Some? ==> Accept(session, p).value.open == session.open
  {
  }

  lemma StepKeepsLifetimes(cfg: Config, s: State, step: Step, t: State)
    requires LifetimesOk(s) && Apply(cfg, s, step) == Some(t)
    ensures LifetimesOk(t)
  {
    hide ReaderApply, WriterApply, CreatorApply, CallApply, OwnerApply, CallLifetimeOk;
    var u := Act(cfg, s, step).value;
    match step {
      case OfCall(c, a) => CallKeepsLifetimes(s, c, a, u);
      case OfReader(r) =>
        ReaderFrame(cfg, s, r, u);
        ReaderKeepsOpen(cfg, s, r, u);
        SameLifetimes(s, u);
      case OfWriter(w) =>
        WriterFrame(cfg, s, w, u);
        SameLifetimes(s, u);
      case OfCreator(k, n) => CreatorKeepsLifetimes(s, k, n, u);
      case OfOwner(o) => OwnerKeepsLifetimes(s, o, u);
    }
    SameLifetimes(u, t);
  }

  lemma SameLifetimes(s: State, t: State)
    requires LifetimesOk(s) && t.calls == s.calls && t.creators == s.creators
    requires t.alive == s.alive && t.accepting == s.accepting
    requires !s.alive ==> t.reader == s.reader && t.writer == s.writer
    requires t.sessions.Keys == s.sessions.Keys
    requires forall id :: id in s.sessions ==> t.sessions[id].open == s.sessions[id].open
    ensures LifetimesOk(t)
  {
    forall c | c in t.calls
      ensures CallLifetimeOk(t, c)
    {
      assert CallLifetimeOk(s, c);
    }
  }

  /** Nothing is dropped under somebody's feet. */
  lemma {:induction false} NothingOutlivesItsGround(cfg: Config, steps: seq<Step>)
    requires Run(cfg, steps).Some?
    ensures LifetimesOk(Run(cfg, steps).value)
  {
    hide Apply, LifetimesOk;
    if steps == [] {
      assert LifetimesOk(Initial(cfg)) by {
        InitialLifetimes(cfg);
      }
    } else {
      var init := steps[..|steps| - 1];
      NothingOutlivesItsGround(cfg, init);
      StepKeepsLifetimes(cfg, Run(cfg, init).value, steps[|steps| - 1], Run(cfg, steps).value);
    }
  }

  lemma InitialLifetimes(cfg: Config)
    ensures LifetimesOk(Initial(cfg))
  {
  }
}
