/** Runs that get somewhere: a stream read to its end, a frame torn anywhere,
    and a connection taken down completely. */
module RunEndings {
  import opened Primitives
  import opened Packets
  import opened Framing
  import opened ConnectionSystem
  import opened OutboundInvariants
  import opened RunWitnesses
  import Requests = AccountingRequests
  import Sessions

  // ---------- A stream read to its end ----------

  /** The read loop gets through any stream: rejected headers are skipped,
      packets for nobody are dropped, and it comes to stand at the bytes that
      are no frame yet. */
  lemma {:induction false} StreamIsRead(cfg: Config, start: State, steps: seq<Step>, s: State)
    returns (more: seq<Step>, t: State)
    requires Exec(cfg, start, steps) == Some(s) && s.reader == Reading && s.sessions == map[]
    ensures Exec(cfg, start, more) == Some(t) && t.reader == Reading
    ensures t.unread == Leftover(s.unread) && t.routed == s.routed + Decode(cfg.secret, s.unread)
    decreases |s.unread|
  {
    hide Exec, NextFrame, Open;
    match NextFrame(s.unread)
    case Starved =>
      more, t := steps, s;
    case Rejected(rest) =>
      var s1 := s.(unread := rest, clock := s.clock + 1);
      ExecOne(cfg, start, steps, s, OfReader(ReadFrame), s1);
      more, t := StreamIsRead(cfg, start, steps + [OfReader(ReadFrame)], s1);
    case Framed(packet, rest) =>
      var steps1, s1 := PacketIsDropped(cfg, start, steps, s);
      more, t := StreamIsRead(cfg, start, steps1, s1);
  }

  lemma PacketIsDropped(cfg: Config, start: State, steps: seq<Step>, s: State)
    returns (more: seq<Step>, t: State)
    requires Exec(cfg, start, steps) == Some(s) && s.reader == Reading && s.sessions == map[]
    requires NextFrame(s.unread).Framed?
    ensures Exec(cfg, start, more) == Some(t) && t.reader == Reading && t.sessions == map[]
    ensures t.unread == NextFrame(s.unread).rest
    ensures t.routed == s.routed + [Open(cfg.secret, NextFrame(s.unread).packet)]
  {
    hide Exec, NextFrame, Open;
    var q := Open(cfg.secret, NextFrame(s.unread).packet);
    var s1 := s.(unread := NextFrame(s.unread).rest, reader := Routing(q), clock := s.clock + 1);
    ExecOne(cfg, start, steps, s, OfReader(ReadFrame), s1);
    var steps1 := steps + [OfReader(ReadFrame)];
    t := s1.(reader := Reading, routed := s.routed + [q], clock := s1.clock + 1);
    ExecOne(cfg, start, steps1, s1, OfReader(LookUp), t);
    more := steps1 + [OfReader(LookUp)];
  }

  lemma WholeStreamCanBeRead(cfg: Config)
    ensures exists steps :: Run(cfg, steps).Some? && Run(cfg, steps).value.routed == Decode(cfg.secret, cfg.stream)
  {
    hide Exec, Decode;
    var start := Initial(cfg);
    assert Exec(cfg, start, []) == Some(start) by {
      NoSteps(cfg, start);
    }
    var steps, t := StreamIsRead(cfg, start, [], start);
    assert [] + Decode(cfg.secret, cfg.stream) == Decode(cfg.secret, cfg.stream);
    assert Run(cfg, steps).Some? && Run(cfg, steps).value.routed == Decode(cfg.secret, cfg.stream);
  }

  // ---------- A frame torn anywhere ----------

  /** One more step of a run. */
  lemma Then(cfg: Config, steps: seq<Step>, s: State, step: Step) returns (more: seq<Step>, t: State)
    requires Run(cfg, steps) == Some(s) && Act(cfg, s, step).Some?
    ensures Run(cfg, more) == Some(t) && t == Act(cfg, s, step).value.(clock := s.clock + 1)
  {
    hide Exec, Act;
    t := Act(cfg, s, step).value.(clock := s.clock + 1);
    ExecOne(cfg, Initial(cfg), steps, s, step, t);
    more := steps + [step];
  }

  predicate TornAfter(s: State, frame: seq<byte>, n: nat)
    requires n <= |frame|
  {
    s.writer == WriterEnded(frame[..n]) && s.wire == [] && s.written == []
  }

  /** A failing write can leave any part of a frame on the wire that is not the
      whole of it. */
  lemma FrameMayBeTornAnywhere(cfg: Config, id: u32, request: Requests.AccountingRequest, n: nat)
    requires cfg.secret.Some? ==> Fits(request)
    requires n < |Packets.Encoding(Sessions.RequestPacket(id, 1, request))|
    ensures var p := Sessions.RequestPacket(id, 1, request);
            && Seal(cfg.secret, p).Returned? && n < |Packets.Encoding(Seal(cfg.secret, p).value)|
            && exists steps ::
                 && Run(cfg, steps).Some?
                 && TornAfter(Run(cfg, steps).value, Packets.Encoding(Seal(cfg.secret, p).value), n)
  {
    hide Exec, Seal, Fits, Sessions.RequestPacket;
    var p := Sessions.RequestPacket(id, 1, request);
    RequestPacketIsSized(id, 1, request, cfg.secret);
    SealKeepsSize(cfg.secret, p);
    var steps, s := RequestIsQueued(cfg, id, request);
    var steps1, s1 := Then(cfg, steps, s, OfWriter(Take));
    var steps2, s2 := Then(cfg, steps1, s1, OfWriter(WriteFails(n)));
    assert Run(cfg, steps2).Some? && TornAfter(Run(cfg, steps2).value, Packets.Encoding(Seal(cfg.secret, p).value), n);
  }

  lemma SealKeepsSize(k: Secret, p: Packet)
    ensures Seal(k, p).Returned? ==> |Packets.Encoding(Seal(k, p).value)| == |Packets.Encoding(p)|
  {
    SealScrambles(k, p);
  }

  // ---------- A connection taken down ----------

  /** Nothing is left: a call has been cancelled, another one has failed once
      the connection object was gone, a creator has been abandoned, and the
      session was used and marked by its holder and then dropped. */
  predicate TakenDown(s: State, id: u32) {
    && s.reader.ReaderEnded? && s.writer.WriterEnded? && !s.accepting && !s.alive
    && 1 in s.creators && s.creators[1].Abandoned?
    && 0 in s.calls && s.calls[0].phase.Failed? && s.calls[0].number == Some(0)
    && 1 in s.calls && s.calls[1].phase.Failed? && s.calls[1].number == None
    && id in s.sessions && !s.sessions[id].open && s.sessions[id].complete && s.sessions[id].numbered == 2
  }

  /** The write loop fails, then the read loop; the flag falls and the object
      goes, although a call is still waiting. */
  lemma LoopsEnd(cfg: Config, steps: seq<Step>, s: State) returns (more: seq<Step>, t: State)
    requires Run(cfg, steps) == Some(s) && s.writer.Taking? && |s.outbound| == 1 && s.reader.Reading?
    requires s.accepting && s.alive && Seal(cfg.secret, s.outbound[0]).Returned?
    requires forall k :: k in s.creators ==> s.creators[k].Over()
    ensures Run(cfg, more) == Some(t)
    ensures t.reader.ReaderEnded? && t.writer.WriterEnded? && !t.accepting && !t.alive
    ensures t.sessions == s.sessions && t.creators == s.creators && t.calls == s.calls && t.clock == s.clock + 5
  {
    hide Exec, Seal;
    var steps1, s1 := Then(cfg, steps, s, OfWriter(Take));
    var steps2, s2 := Then(cfg, steps1, s1, OfWriter(WriteFails(0)));
    var steps3, s3 := Then(cfg, steps2, s2, OfReader(ReadFails));
    var steps4, s4 := Then(cfg, steps3, s3, OfOwner(DisableSessions));
    more, t := Then(cfg, steps4, s4, OfOwner(DropConnection));
  }

  /** A second creator that is abandoned at once. */
  lemma CreatorGivesUp(cfg: Config, steps: seq<Step>, s: State) returns (more: seq<Step>, t: State)
    requires Run(cfg, steps) == Some(s) && s.alive && s.creators.Keys == {0}
    ensures Run(cfg, more) == Some(t)
    ensures t == s.(creators := s.creators[1 := Abandoned], clock := t.clock)
  {
    hide Exec;
    var steps1, s1 := Then(cfg, steps, s, OfCreator(1, Ask));
    more, t := Then(cfg, steps1, s1, OfCreator(1, Abandon));
    assert s1.creators[1 := Abandoned] == s.creators[1 := Abandoned];
  }

  /** A second call that is cancelled at once. */
  lemma CallGivesUp(cfg: Config, steps: seq<Step>, s: State, id: u32, request: Requests.AccountingRequest)
    returns (more: seq<Step>, t: State)
    requires Run(cfg, steps) == Some(s) && s.alive && id in s.sessions && s.sessions[id].open
    requires s.calls.Keys == {0}
    ensures Run(cfg, more) == Some(t)
    ensures t.calls.Keys == {0, 1} && t.calls[0] == s.calls[0] && t.calls[1].phase.Failed?
    ensures t.calls[1].number == None && t.calls[1].id == id
    ensures t == s.(calls := t.calls, clock := t.clock)
  {
    hide Exec, Received, Sessions.RequestPacket;
    var steps1, s1 := Then(cfg, steps, s, OfCall(1, Begin(id, request)));
    more, t := Then(cfg, steps1, s1, OfCall(1, Cancel));
    assert t.sessions == s.sessions;
    assert s.outbound + [] == s.outbound && s.submitted + [] == s.submitted;
  }

  /** The waiting call fails; then the holder of the session marks it, draws a
      number and drops it. */
  lemma SessionEnds(cfg: Config, steps: seq<Step>, s: State, id: u32) returns (more: seq<Step>, t: State)
    requires Run(cfg, steps) == Some(s) && !s.alive && id in s.sessions
    requires s.sessions[id].open && s.sessions[id].queue == []
    requires s.calls.Keys == {0, 1} && s.calls[0].id == id && s.calls[0].phase.Holding? && s.calls[1].phase.Failed?
    ensures Run(cfg, more) == Some(t)
    ensures t == s.(calls := t.calls, sessions := t.sessions, clock := t.clock)
    ensures t.calls.Keys == {0, 1} && t.calls[1] == s.calls[1]
    ensures t.calls[0].phase.Failed? && t.calls[0].number == s.calls[0].number
    ensures id in t.sessions && !t.sessions[id].open && t.sessions[id].complete
    ensures t.sessions[id].numbered == s.sessions[id].numbered + 1
  {
    hide Exec, Received, Sessions.RequestPacket;
    var steps1, s1 := Then(cfg, steps, s, OfCall(0, Receive));
    var steps2, s2 := Then(cfg, steps1, s1, OfOwner(MarkComplete(id)));
    var steps3, s3 := Then(cfg, steps2, s2, OfOwner(DrawNumber(id)));
    more, t := Then(cfg, steps3, s3, OfOwner(DropSession(id)));
  }

  /** Every connection can be taken down completely, whatever its peer says. */
  lemma ConnectionMayBeTakenDown(cfg: Config, id: u32, request: Requests.AccountingRequest)
    requires Fits(request)
    ensures exists steps :: Run(cfg, steps).Some? && TakenDown(Run(cfg, steps).value, id)
  {
    hide Exec, Fits, Seal, Sessions.RequestPacket;
    var start := Initial(cfg);
    var steps0, s0 := SessionOpens(cfg, id);
    var steps1, s1 := CallPasses(cfg, start, steps0, s0, 0, id, request);
    var steps2, s2 := CallWaits(cfg, start, steps1, s1, 0, id);
    RequestPacketIsSized(id, 1, request, cfg.secret);
    var steps3, s3 := CallGivesUp(cfg, steps2, s2, id, request);
    var steps4, s4 := CreatorGivesUp(cfg, steps3, s3);
    var steps5, s5 := LoopsEnd(cfg, steps4, s4);
    var steps6, s6 := SessionEnds(cfg, steps5, s5, id);
    assert Run(cfg, steps6).Some? && TakenDown(Run(cfg, steps6).value, id);
  }
}
