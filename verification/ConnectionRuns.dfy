/** Whole runs of a connection: what every schedule of its tasks keeps from the
    start, what later states keep of earlier ones, and which steps of the
    schedule the history of a state stands for. */
module ConnectionRuns {
  import opened Primitives
  import opened Framing
  import opened ConnectionSystem
  import opened CallInvariants
  import opened ConnectionInvariants
  import opened OutboundInvariants
  import Replies = AccountingReplies
  import Sessions

  // ---------- The invariant along a run ----------

  ghost predicate Inv(cfg: Config, s: State) {
    && RoutingOk(cfg, s) && CallsOk(s) && CompletionsOk(s) && FifoOk(s) && OriginOk(s) && RegistryOk(s)
    && PeerOk(cfg, s) && WireOk(cfg, s)
  }

  lemma InitialInv(cfg: Config)
    ensures Inv(cfg, Initial(cfg))
  {
    NothingDecodes(cfg.secret);
    assert [] + [] + Decode(cfg.secret, cfg.stream) == Decode(cfg.secret, cfg.stream);
  }

  lemma StepKeepsInv(cfg: Config, s: State, step: Step, t: State)
    requires Inv(cfg, s) && Apply(cfg, s, step) == Some(t)
    ensures Inv(cfg, t)
  {
    hide Apply, RoutingOk, CallsOk, CompletionsOk, FifoOk, OriginOk, RegistryOk, PeerOk, WireOk;
    StepKeepsRouting(cfg, s, step, t);
    StepKeepsCalls(cfg, s, step, t);
    StepKeepsCompletions(cfg, s, step, t);
    StepKeepsOrigin(cfg, s, step, t);
    StepKeepsFifo(cfg, s, step, t);
    StepKeepsRegistry(cfg, s, step, t);
    StepKeepsPeer(cfg, s, step, t);
    StepKeepsWire(cfg, s, step, t);
  }

  lemma {:induction false} RunKeepsInv(cfg: Config, steps: seq<Step>)
    requires Run(cfg, steps).Some?
    ensures Inv(cfg, Run(cfg, steps).value)
  {
    hide Apply, Inv;
    if steps == [] {
      InitialInv(cfg);
    } else {
      var init := steps[..|steps| - 1];
      RunKeepsInv(cfg, init);
      StepKeepsInv(cfg, Run(cfg, init).value, steps[|steps| - 1], Run(cfg, steps).value);
    }
  }

  // ---------- What later states keep ----------

  /** The session is the same one, has received at least as much, and neither
      its completion nor its end is ever taken back. */
  predicate SessionLater(was: Session, now: Session) {
    && now.owner == was.owner && now.since == was.since
    && was.consumed <= now.consumed
    && (was.complete ==> now.complete)
    && (!was.open ==> !now.open)
  }

  /** A call keeps its session and its request, and once over never changes. */
  predicate CallLater(was: Call, now: Call) {
    now.id == was.id && now.request == was.request && (was.phase.Over() ==> now == was)
  }

  predicate Later(s: State, t: State) {
    && (!s.accepting ==> !t.accepting)
    && (s.fellAt.Some? ==> t.fellAt == s.fellAt)
    && s.wire <= t.wire && s.written <= t.written && s.submitted <= t.submitted && s.routed <= t.routed
    && (forall id :: id in s.sessions ==> id in t.sessions && SessionLater(s.sessions[id], t.sessions[id]))
    && (forall c :: c in s.calls ==> c in t.calls && CallLater(s.calls[c], t.calls[c]))
  }

  lemma LaterIsTransitive(s: State, t: State, u: State)
    requires Later(s, t) && Later(t, u)
    ensures Later(s, u)
  {
  }

  lemma OverIsFinal(v: View, c: nat, call: Call, session: Session, step: CallStep)
    ensures call.phase.Over() ==> CallMove(v, c, call, session, step) == None
  {
    hide Received, Sessions.RequestPacket;
  }

  lemma CallsMoveOn(s: State, c: nat, step: CallStep, t: State)
    requires CallApply(s, c, step) == Some(t)
    ensures Later(s, t)
  {
    hide CallMove;
    CallsAdvanceSessions(s, c, step, t);
    CallsKeepRequests(s, c, step, t);
    if !step.Begin? {
      OverIsFinal(ViewOf(s), c, s.calls[c], s.sessions[s.calls[c].id], step);
    }
  }

  lemma StepMovesOn(cfg: Config, s: State, step: Step, t: State)
    requires Apply(cfg, s, step) == Some(t) && RegistryOk(s)
    ensures Later(s, t)
  {
    hide ReaderApply, WriterApply, CallApply, CreatorApply, OwnerApply;
    var u := Act(cfg, s, step).value;
    match step
    case OfCall(c, a) => CallsMoveOn(s, c, a, u);
    case OfReader(r) => ReaderFrame(cfg, s, r, u);
    case OfWriter(w) => WriterFrame(cfg, s, w, u);
    case OfCreator(k, n) => CreatorFrame(s, k, n, u);
    case OfOwner(o) => OwnerFrame(s, o, u);
  }

  /** Between any two moments of any run: the accept flag never comes back, a
      complete session stays complete, an id stays bound to its own channel, a
      finished call stays as it ended, and what was written, routed or received
      is never taken back. */
  lemma {:induction false} HistoryIsKept(cfg: Config, steps: seq<Step>, n: nat)
    requires Run(cfg, steps).Some? && n <= |steps|
    ensures Run(cfg, steps[..n]).Some? && Later(Run(cfg, steps[..n]).value, Run(cfg, steps).value)
    decreases |steps|
  {
    hide Apply, Later, RegistryOk;
    if n == |steps| {
      assert steps[..n] == steps;
      LaterIsReflexive(Run(cfg, steps).value);
    } else {
      var init := steps[..|steps| - 1];
      var t, u := Run(cfg, init).value, Run(cfg, steps).value;
      HistoryIsKept(cfg, init, n);
      assert init[..n] == steps[..n];
      RunKeepsInv(cfg, init);
      StepMovesOn(cfg, t, steps[|steps| - 1], u);
      LaterIsTransitive(Run(cfg, steps[..n]).value, t, u);
    }
  }

  /** The step at position `n` of a run was enabled there. */
  lemma StepInRun(cfg: Config, steps: seq<Step>, n: nat)
    requires Run(cfg, steps).Some? && n < |steps|
    ensures Run(cfg, steps[..n]).Some? && Run(cfg, steps[..n + 1]).Some?
    ensures Apply(cfg, Run(cfg, steps[..n]).value, steps[n]) == Run(cfg, steps[..n + 1])
  {
    hide Apply, Later;
    HistoryIsKept(cfg, steps, n);
    HistoryIsKept(cfg, steps, n + 1);
    assert steps[..n + 1][..n] == steps[..n];
  }

  lemma LaterIsReflexive(s: State)
    ensures Later(s, s)
  {
  }

  // ---------- The schedule behind a state ----------

  /** The stamps of a state are the positions in its schedule of the steps
      they stand for. */
  predicate CallTimed(steps: seq<Step>, c: nat, call: Call) {
    && call.begunAt < |steps| && steps[call.begunAt] == OfCall(c, Begin(call.id, call.request))
    && (call.probedAt.Some? ==>
          call.probedAt.value < |steps| && steps[call.probedAt.value] == OfCall(c, ProbeReceiver))
    && (call.lockedAt.Some? ==>
          call.lockedAt.value < |steps| && steps[call.lockedAt.value] == OfCall(c, Acquire))
    && (call.phase.ReturnedOk? ==>
          call.endedAt.Some? && call.endedAt.value < |steps| && steps[call.endedAt.value] == OfCall(c, Return))
  }

  predicate CreatorTimed(steps: seq<Step>, k: nat, creator: Creator) {
    creator.Allowed? || creator.Registered? ==>
      creator.allowedAt < |steps| && steps[creator.allowedAt] == OfCreator(k, CheckFlag)
  }

  predicate FallTimed(steps: seq<Step>, fellAt: Option<nat>) {
    fellAt.Some? ==> fellAt.value < |steps| && steps[fellAt.value] == OfOwner(DisableSessions)
  }

  predicate Timed(steps: seq<Step>, s: State) {
    && s.clock == |steps|
    && (forall c :: c in s.calls ==> CallTimed(steps, c, s.calls[c]))
    && (forall k :: k in s.creators ==> CreatorTimed(steps, k, s.creators[k]))
    && FallTimed(steps, s.fellAt)
  }

  lemma MoveIsTimed(steps: seq<Step>, v: View, c: nat, call: Call, session: Session, step: CallStep, m: Move)
    requires CallTimed(steps, c, call) && v.clock == |steps| && CallMove(v, c, call, session, step) == Some(m)
    ensures CallTimed(steps + [OfCall(c, step)], c, m.call)
  {
    hide Replies.Decoding, Sessions.RequestPacket;
    MoveKeepsId(v, c, call, session, step, m);
  }

  lemma StillTimed(steps: seq<Step>, step: Step, c: nat, call: Call)
    requires CallTimed(steps, c, call)
    ensures CallTimed(steps + [step], c, call)
  {
  }

  lemma CreatorStepIsTimed(steps: seq<Step>, s: State, k: nat, n: CreatorStep, t: State)
    requires Timed(steps, s) && CreatorApply(s, k, n) == Some(t)
    ensures forall x :: x in t.creators ==> CreatorTimed(steps + [OfCreator(k, n)], x, t.creators[x])
  {
    hide CallTimed;
    forall x | x in t.creators
      ensures CreatorTimed(steps + [OfCreator(k, n)], x, t.creators[x])
    {
      if x in s.creators {
        assert CreatorTimed(steps, x, s.creators[x]);
      }
    }
  }

  lemma CreatorsStillTimed(steps: seq<Step>, s: State, step: Step)
    requires Timed(steps, s)
    ensures forall k :: k in s.creators ==> CreatorTimed(steps + [step], k, s.creators[k])
    ensures FallTimed(steps + [step], s.fellAt)
  {
    hide CallTimed;
    forall k | k in s.creators
      ensures CreatorTimed(steps + [step], k, s.creators[k])
    {
      assert CreatorTimed(steps, k, s.creators[k]);
    }
  }

  lemma CallStepIsTimed(steps: seq<Step>, s: State, c: nat, a: CallStep, t: State)
    requires Timed(steps, s) && CallApply(s, c, a) == Some(t)
    ensures forall x :: x in t.calls ==> CallTimed(steps + [OfCall(c, a)], x, t.calls[x])
    ensures t.creators == s.creators && t.fellAt == s.fellAt
  {
    hide CallMove, CallTimed, CreatorTimed, FallTimed;
    if a.Begin? {
      BeginIsTimed(steps, c, a, t.calls[c]);
    } else {
      var call, session := s.calls[c], s.sessions[s.calls[c].id];
      MoveIsTimed(steps, ViewOf(s), c, call, session, a, CallMove(ViewOf(s), c, call, session, a).value);
    }
    CallsStillTimed(steps, s, OfCall(c, a));
  }

  lemma CallsStillTimed(steps: seq<Step>, s: State, step: Step)
    requires Timed(steps, s)
    ensures forall c :: c in s.calls ==> CallTimed(steps + [step], c, s.calls[c])
  {
    hide CallTimed, CreatorTimed, FallTimed;
    forall c | c in s.calls
      ensures CallTimed(steps + [step], c, s.calls[c])
    {
      StillTimed(steps, step, c, s.calls[c]);
    }
  }

  lemma OwnerStepIsTimed(steps: seq<Step>, s: State, o: OwnerStep, t: State)
    requires s.clock == |steps| && FallTimed(steps, s.fellAt) && OwnerApply(s, o) == Some(t)
    ensures FallTimed(steps + [OfOwner(o)], t.fellAt)
  {
    OwnerFrame(s, o, t);
    hide OwnerApply, Undisturbed;
  }

  lemma StepIsTimed(cfg: Config, steps: seq<Step>, s: State, step: Step, t: State)
    requires Timed(steps, s) && Apply(cfg, s, step) == Some(t)
    ensures Timed(steps + [step], t)
  {
    hide ReaderApply, WriterApply, CreatorApply, CallApply, OwnerApply;
    hide CallTimed, CreatorTimed, FallTimed, Undisturbed;
    var u := Act(cfg, s, step).value;
    CreatorsStillTimed(steps, s, step);
    CallsStillTimed(steps, s, step);
    match step
    case OfCall(c, a) => CallStepIsTimed(steps, s, c, a, u);
    case OfReader(r) => ReaderFrame(cfg, s, r, u);
    case OfWriter(w) => WriterFrame(cfg, s, w, u);
    case OfCreator(k, n) => CreatorFrame(s, k, n, u); CreatorStepIsTimed(steps, s, k, n, u);
    case OfOwner(o) => OwnerFrame(s, o, u); OwnerStepIsTimed(steps, s, o, u);
  }

  lemma BeginIsTimed(steps: seq<Step>, c: nat, step: CallStep, call: Call)
    requires step.Begin? && call == NewCall(step.id, step.request, |steps|)
    ensures CallTimed(steps + [OfCall(c, step)], c, call)
  {
  }

  lemma {:induction false} RunIsTimed(cfg: Config, steps: seq<Step>)
    requires Run(cfg, steps).Some?
    ensures Timed(steps, Run(cfg, steps).value)
  {
    hide Apply, Timed;
    if steps == [] {
      assert Timed([], Initial(cfg)) by {
        InitialIsTimed(cfg);
      }
    } else {
      var init, last := steps[..|steps| - 1], steps[|steps| - 1];
      RunIsTimed(cfg, init);
      StepIsTimed(cfg, init, Run(cfg, init).value, last, Run(cfg, steps).value);
      assert init + [last] == steps;
    }
  }

  lemma InitialIsTimed(cfg: Config)
    ensures Timed([], Initial(cfg))
  {
  }

  lemma ReturnIsFinal(cfg: Config, s: State, d: nat, u: State, end: State)
    requires Apply(cfg, s, OfCall(d, Return)) == Some(u) && Later(u, end)
    ensures d in u.calls && u.calls[d].phase.ReturnedOk? && d in end.calls && end.calls[d] == u.calls[d]
  {
    hide Replies.Decoding;
    assert CallLater(u.calls[d], end.calls[d]);
  }

  /** A call begins once: a state after its `Begin` at position `j` stamps it
      no earlier than that. */
  lemma BeginIsOnce(cfg: Config, steps: seq<Step>, j: nat, c: nat)
    requires Run(cfg, steps).Some? && j < |steps|
    requires steps[j].OfCall? && steps[j].c == c && steps[j].a.Begin?
    ensures var s := Run(cfg, steps).value;
            c in s.calls && s.calls[c].begunAt >= j && s.calls[c].id == steps[j].a.id
  {
    hide Exec, CallMove;
    var s := Run(cfg, steps).value;
    StepInRun(cfg, steps, j);
    var before, after := Run(cfg, steps[..j]).value, Run(cfg, steps[..j + 1]).value;
    assert c !in before.calls && c in after.calls;
    HistoryIsKept(cfg, steps, j + 1);
    assert CallLater(after.calls[c], s.calls[c]);
    RunIsTimed(cfg, steps);
    assert CallTimed(steps, c, s.calls[c]);
    var p := s.calls[c].begunAt;
    if p < j {
      StepInRun(cfg, steps, p);
      assert steps[..j][..p + 1] == steps[..p + 1];
      HistoryIsKept(cfg, steps[..j], p + 1);
    }
  }

  /** Marks are made by their steps only. */
  lemma StepMarks(cfg: Config, s: State, step: Step, t: State, id: u32)
    requires Apply(cfg, s, step) == Some(t) && id in t.sessions && t.sessions[id].marked
    ensures (id in s.sessions && s.sessions[id].marked) || step == OfOwner(MarkComplete(id))
  {
    hide ReaderApply, WriterApply, CreatorApply, CallApply, OwnerApply;
    var u := Act(cfg, s, step).value;
    match step
    case OfCall(c, a) => CallsAdvanceSessions(s, c, a, u);
    case OfReader(r) => ReaderFrame(cfg, s, r, u);
    case OfWriter(w) => WriterFrame(cfg, s, w, u);
    case OfCreator(k, n) => CreatorFrame(s, k, n, u);
    case OfOwner(o) => OwnerFrame(s, o, u);
  }

  lemma {:induction false} MarksComeFromSteps(cfg: Config, steps: seq<Step>, id: u32)
    requires Run(cfg, steps).Some?
    requires var s := Run(cfg, steps).value; id in s.sessions && s.sessions[id].marked
    ensures OfOwner(MarkComplete(id)) in steps
  {
    hide Apply;
    if steps != [] {
      var init, last := steps[..|steps| - 1], steps[|steps| - 1];
      assert steps == init + [last];
      StepMarks(cfg, Run(cfg, init).value, last, Run(cfg, steps).value, id);
      if last != OfOwner(MarkComplete(id)) {
        MarksComeFromSteps(cfg, init, id);
      }
    }
  }

  /** A session marked at some step of a run is complete ever after. */
  lemma MarksLast(cfg: Config, steps: seq<Step>, n: nat, id: u32)
    requires Run(cfg, steps).Some? && n < |steps| && steps[n] == OfOwner(MarkComplete(id))
    ensures var s := Run(cfg, steps).value; id in s.sessions && s.sessions[id].complete
  {
    hide Exec, CallLater;
    StepInRun(cfg, steps, n);
    HistoryIsKept(cfg, steps, n + 1);
    var after, s := Run(cfg, steps[..n + 1]).value, Run(cfg, steps).value;
    assert SessionLater(after.sessions[id], s.sessions[id]);
  }
}
