/** Where sequence numbers come from: every draw of a session's counter in a
    schedule, by a call or by the holder of the session, counts once. */
module NumberDraws {
  import opened Primitives
  import opened Packets
  import opened Framing
  import opened ConnectionSystem
  import opened CallInvariants
  import opened ConnectionInvariants
  import opened ConnectionRuns
  import opened OutboundInvariants
  import Replies = AccountingReplies
  import Sessions

  /** The step draws a number of the session in this state. */
  predicate IsDraw(s: State, step: Step, id: u32) {
    || step == OfOwner(DrawNumber(id))
    || (step.OfCall? && step.a == TakeNumber && step.c in s.calls && s.calls[step.c].id == id)
  }

  /** How many steps of the schedule draw a number of the session. */
  function Draws(cfg: Config, steps: seq<Step>, id: u32): nat {
    if steps == [] then 0
    else
      var init, last := steps[..|steps| - 1], steps[|steps| - 1];
      Draws(cfg, init, id)
      + if Run(cfg, init).Some? && IsDraw(Run(cfg, init).value, last, id) then 1 else 0
  }

  lemma MoveDraws(v: View, c: nat, call: Call, session: Session, step: CallStep, m: Move)
    requires CallMove(v, c, call, session, step) == Some(m)
    ensures m.session.numbered == session.numbered + if step == TakeNumber then 1 else 0
    ensures m.call.number == if step == TakeNumber then Some(session.numbered) else call.number
  {
    hide Sessions.RequestPacket, Replies.Decoding;
  }

  predicate Counted(s: State, t: State, step: Step, id: u32)
    requires id in s.sessions
  {
    && id in t.sessions
    && t.sessions[id].numbered == s.sessions[id].numbered + if IsDraw(s, step, id) then 1 else 0
  }

  lemma CallDraws(s: State, c: nat, a: CallStep, t: State, id: u32)
    requires CallApply(s, c, a) == Some(t) && id in s.sessions
    ensures Counted(s, t, OfCall(c, a), id)
  {
    hide CallMove;
    CallsAdvanceSessions(s, c, a, t);
    if !a.Begin? {
      var call, session := s.calls[c], s.sessions[s.calls[c].id];
      var m := CallMove(ViewOf(s), c, call, session, a).value;
      MoveDraws(ViewOf(s), c, call, session, a, m);
      MoveKeepsId(ViewOf(s), c, call, session, a, m);
    }
  }

  lemma OwnerDraws(s: State, o: OwnerStep, t: State, id: u32)
    requires OwnerApply(s, o) == Some(t) && id in s.sessions
    ensures Counted(s, t, OfOwner(o), id)
  {
  }

  lemma ReaderDrawsNothing(cfg: Config, s: State, r: ReaderStep, t: State, id: u32)
    requires ReaderApply(cfg, s, r) == Some(t) && id in s.sessions
    ensures Counted(s, t, OfReader(r), id)
  {
    hide NextFrame, Open, Accept;
    if r.Deliver? {
      AcceptDrawsNothing(s.sessions[s.reader.packet.header.sessionId], s.reader.packet);
    }
  }

  lemma AcceptDrawsNothing(session: Session, p: Packet)
    ensures Accept(session, p).Some? ==> Accept(session, p).value.numbered == session.numbered
  {
  }

  lemma CreatorDrawsNothing(s: State, k: nat, n: CreatorStep, t: State, id: u32)
    requires CreatorApply(s, k, n) == Some(t)
    ensures id in s.sessions ==> Counted(s, t, OfCreator(k, n), id)
    ensures id !in s.sessions && id in t.sessions ==> t.sessions[id].numbered == 0
  {
  }

  lemma StepDraws(cfg: Config, s: State, step: Step, t: State, id: u32)
    requires Apply(cfg, s, step) == Some(t)
    ensures id in s.sessions ==> Counted(s, t, step, id)
    ensures id !in s.sessions ==> !IsDraw(s, step, id) && (id in t.sessions ==> t.sessions[id].numbered == 0)
  {
    hide ReaderApply, WriterApply, CreatorApply, CallApply, OwnerApply;
    var u := Act(cfg, s, step).value;
    match step
    case OfCall(c, a) =>
      if id in s.sessions {
        CallDraws(s, c, a, u, id);
      } else {
        NoCallDraws(s, c, a, u, id);
      }
    case OfReader(r) =>
      ReaderFrame(cfg, s, r, u);
      if id in s.sessions {
        ReaderDrawsNothing(cfg, s, r, u, id);
      }
    case OfWriter(w) => WriterFrame(cfg, s, w, u);
    case OfCreator(k, n) => CreatorDrawsNothing(s, k, n, u, id);
    case OfOwner(o) =>
      OwnerFrame(s, o, u);
      if id in s.sessions {
        OwnerDraws(s, o, u, id);
      } else {
        NoOwnerDraws(s, o, u, id);
      }
  }

  lemma NoCallDraws(s: State, c: nat, a: CallStep, t: State, id: u32)
    requires CallApply(s, c, a) == Some(t) && id !in s.sessions
    ensures id !in t.sessions && !IsDraw(s, OfCall(c, a), id)
  {
    hide CallMove;
    CallsAdvanceSessions(s, c, a, t);
  }

  lemma NoOwnerDraws(s: State, o: OwnerStep, t: State, id: u32)
    requires OwnerApply(s, o) == Some(t) && id !in s.sessions
    ensures id !in t.sessions && !IsDraw(s, OfOwner(o), id)
  {
  }

  /** The counter of a session stands at the number of its draws, whoever made
      them. */
  lemma {:induction false} EveryDrawCounts(cfg: Config, steps: seq<Step>, id: u32)
    requires Run(cfg, steps).Some?
    ensures var s := Run(cfg, steps).value;
            && (id in s.sessions ==>
                  && s.sessions[id].numbered == Draws(cfg, steps, id)
                  && s.sessions[id].nextSeq == (1 + 2 * Draws(cfg, steps, id)) % 0x100)
            && (id !in s.sessions ==> Draws(cfg, steps, id) == 0)
  {
    hide Apply, IsDraw, RoutingOk, CompletionsOk, FifoOk, OriginOk, RegistryOk, PeerOk, WireOk;
    var s := Run(cfg, steps).value;
    if steps != [] {
      var init, last := steps[..|steps| - 1], steps[|steps| - 1];
      EveryDrawCounts(cfg, init, id);
      StepDraws(cfg, Run(cfg, init).value, last, s, id);
    }
    if id in s.sessions {
      RunKeepsInv(cfg, steps);
      assert HolderOk(s, id) && CounterOk(s.sessions[id]);
      NumberOfDraw(s.sessions[id].numbered);
    }
  }

  lemma {:induction false} NumberOfDraw(i: nat)
    ensures Sessions.SequenceNumberAt(i) == (1 + 2 * i) % 0x100
  {
    if i > 0 {
      NumberOfDraw(i - 1);
      TwoMore(1 + 2 * (i - 1));
    }
  }

  lemma TwoMore(n: nat)
    ensures (n % 0x100 + 2) % 0x100 == (n + 2) % 0x100
  {
  }

  lemma StepNumbers(cfg: Config, s: State, step: Step, t: State, c: nat)
    requires Apply(cfg, s, step) == Some(t) && c in t.calls && t.calls[c].number.Some?
    ensures step == OfCall(c, TakeNumber) ==>
              && c in s.calls && s.calls[c].id == t.calls[c].id && s.calls[c].id in s.sessions
              && t.calls[c].number == Some(s.sessions[s.calls[c].id].numbered)
    ensures step != OfCall(c, TakeNumber) ==>
              c in s.calls && s.calls[c].id == t.calls[c].id && s.calls[c].number == t.calls[c].number
  {
    hide ReaderApply, WriterApply, CreatorApply, OwnerApply, CallMove;
    var u := Act(cfg, s, step).value;
    match step
    case OfCall(d, a) =>
      if d == c && !a.Begin? {
        var call, session := s.calls[c], s.sessions[s.calls[c].id];
        var m := CallMove(ViewOf(s), c, call, session, a).value;
        MoveDraws(ViewOf(s), c, call, session, a, m);
        MoveKeepsId(ViewOf(s), c, call, session, a, m);
      }
    case OfReader(r) => ReaderFrame(cfg, s, r, u);
    case OfWriter(w) => WriterFrame(cfg, s, w, u);
    case OfCreator(k, n) => CreatorFrame(s, k, n, u);
    case OfOwner(o) => OwnerFrame(s, o, u);
  }

  /** The call draws its number at step `n` of the schedule, and the number
      tells how many draws of the session came before. */
  predicate DrawnAt(cfg: Config, steps: seq<Step>, c: nat, call: Call, n: nat)
    requires call.number.Some?
  {
    n < |steps| && steps[n] == OfCall(c, TakeNumber) && call.number.value == Draws(cfg, steps[..n], call.id)
  }

  lemma {:induction false} NumbersTellTheDraws(cfg: Config, steps: seq<Step>, c: nat)
    requires Run(cfg, steps).Some? && c in Run(cfg, steps).value.calls
    requires Run(cfg, steps).value.calls[c].number.Some?
    ensures exists n :: DrawnAt(cfg, steps, c, Run(cfg, steps).value.calls[c], n)
  {
    hide Apply, Draws;
    if steps != [] {
      var init, last := steps[..|steps| - 1], steps[|steps| - 1];
      var s, t := Run(cfg, init).value, Run(cfg, steps).value;
      StepNumbers(cfg, s, last, t, c);
      if last == OfCall(c, TakeNumber) {
        EveryDrawCounts(cfg, init, t.calls[c].id);
        assert DrawnAt(cfg, steps, c, t.calls[c], |init|);
      } else {
        NumbersTellTheDraws(cfg, init, c);
        var n: nat :| DrawnAt(cfg, init, c, s.calls[c], n);
        assert init[..n] == steps[..n];
        assert DrawnAt(cfg, steps, c, t.calls[c], n);
      }
    }
  }
}
