/** What holds of every run of a connection: every schedule of its tasks, from
    the start. */
module ConnectionTheorems {
  import opened Primitives
  import opened Enumerations
  import opened Packets
  import opened Framing
  import opened ConnectionSystem
  import opened CallInvariants
  import opened ConnectionInvariants
  import opened OutboundInvariants
  import opened ConnectionRuns
  import Replies = AccountingReplies
  import Requests = AccountingRequests
  import Sessions
  import Headers

  // ---------- Routing ----------

  /** Concurrent refinement: in every reachable state of every schedule, what a
      session registered at step `n` has received, followed by its queue, is
      what a simple batch decoder finds for it in the part of the stream that
      has been routed since then: nothing lost, doubled, reordered or crossed
      with another session.  A dropped session has received a prefix of that. */
  lemma SessionsReceiveTheirStream(cfg: Config, steps: seq<Step>, n: nat, k: nat, id: u32)
    requires Run(cfg, steps).Some?
    requires n < |steps| && steps[n] == OfCreator(k, Register(id))
    ensures Run(cfg, steps[..n]).Some?
    ensures var s := Run(cfg, steps).value;
            var since := |Run(cfg, steps[..n]).value.routed|;
            var all := Decode(cfg.secret, cfg.stream);
            && id in s.sessions && s.sessions[id].owner == k
            && since <= |s.routed| && s.routed <= all
            && var session, mine := s.sessions[id], OfSession(all[since..|s.routed|], id);
               && |session.queue| <= 32
               && (session.open ==> session.consumed + session.queue == mine)
               && (!session.open ==> session.consumed <= mine)
  {
    hide OfSession, Decode, ReaderApply, WriterApply, CallApply, OwnerApply, Exec;
    hide CallsOk, CompletionsOk, FifoOk, OriginOk, RegistryOk, PeerOk, CallLater;
    var s := Run(cfg, steps).value;
    StepInRun(cfg, steps, n);
    var before, after := Run(cfg, steps[..n]).value, Run(cfg, steps[..n + 1]).value;
    HistoryIsKept(cfg, steps, n + 1);
    assert SessionLater(after.sessions[id], s.sessions[id]);
    RunKeepsInv(cfg, steps);
    assert SessionRouted(s.sessions[id], id, s.routed);
    var all := Decode(cfg.secret, cfg.stream);
    assert s.routed <= all;
    assert s.routed[|before.routed|..] == all[|before.routed|..|s.routed|];
  }

  lemma {:induction false} OfSessionMembers(packets: seq<Packet>, id: u32)
    ensures forall p :: p in OfSession(packets, id) ==> p in packets && p.header.sessionId == id
  {
    if packets != [] {
      OfSessionMembers(packets[..|packets| - 1], id);
    }
  }

  /** Every packet in an inbound queue, and every one a session has received,
      bears its session's id, has the length its header announces, and is clear
      when there is a key. */
  lemma InboundPacketsAreSized(cfg: Config, steps: seq<Step>, id: u32, p: Packet)
    requires Run(cfg, steps).Some? && id in Run(cfg, steps).value.sessions
    requires var session := Run(cfg, steps).value.sessions[id]; p in session.consumed + session.queue
    ensures p.Sized() && p.header.sessionId == id && (cfg.secret.Some? ==> p.Clear())
  {
    hide OfSession, Decode, Exec;
    RunKeepsInv(cfg, steps);
    var s := Run(cfg, steps).value;
    assert SessionRouted(s.sessions[id], id, s.routed);
    var mine := s.routed[s.sessions[id].since..];
    OfSessionMembers(mine, id);
    DecodedAreSized(cfg.secret, cfg.stream);
    if cfg.secret.Some? {
      DecodedAreClear(cfg.secret, cfg.stream);
    }
    assert s.routed <= Decode(cfg.secret, cfg.stream);
    assert p in OfSession(mine, id);
  }

  // ---------- Completion ----------

  /** Completion under concurrency: on one session, any call that got past the
      completion check had taken its receiver read lock before any call that
      completed the session took the receiver write lock. */
  lemma CompletionOrder(cfg: Config, steps: seq<Step>, c: nat, d: nat)
    requires Run(cfg, steps).Some?
    requires var s := Run(cfg, steps).value;
             && c in s.calls && d in s.calls && s.calls[c].id == s.calls[d].id
             && s.calls[c].passed && s.calls[d].phase.Succeeded()
    ensures exists i, j ::
              0 <= i < j < |steps| && steps[i] == OfCall(c, ProbeReceiver) && steps[j] == OfCall(d, Acquire)
  {
    hide Exec, Replies.Decoding, RoutingOk, PeerOk, FifoOk, OriginOk, CompletionsOk, RegistryOk;
    RunKeepsInv(cfg, steps);
    RunIsTimed(cfg, steps);
    var s := Run(cfg, steps).value;
    assert OneOk(s, c) && OneOk(s, d) && TwoOk(s, c, d);
    assert CallTimed(steps, c, s.calls[c]) && CallTimed(steps, d, s.calls[d]);
    var i, j := s.calls[c].probedAt.value, s.calls[d].lockedAt.value;
    assert i < j && steps[i] == OfCall(c, ProbeReceiver) && steps[j] == OfCall(d, Acquire);
  }

  /** A call that begins after another one on its session returned Ok is
      turned away: it never passes the completion check, so calls made one
      after the other on a session see at most one Ok. */
  lemma LateCallIsTurnedAway(cfg: Config, steps: seq<Step>, i: nat, d: nat, j: nat, c: nat)
    requires Run(cfg, steps).Some? && i < j < |steps|
    requires steps[i] == OfCall(d, Return) && steps[j].OfCall? && steps[j].c == c && steps[j].a.Begin?
    requires var s := Run(cfg, steps).value; d in s.calls && s.calls[d].id == steps[j].a.id
    ensures var s := Run(cfg, steps).value;
            c in s.calls && s.calls[c].id == steps[j].a.id && !s.calls[c].passed && !s.calls[c].phase.ReturnedOk?
  {
    hide Exec, Replies.Decoding, Later, CallMove, CallTimed;
    var s := Run(cfg, steps).value;
    StepInRun(cfg, steps, i);
    var u := Run(cfg, steps[..i + 1]).value;
    HistoryIsKept(cfg, steps, i + 1);
    ReturnIsFinal(cfg, Run(cfg, steps[..i]).value, d, u, s);
    BeginIsOnce(cfg, steps, j, c);
    RunIsTimed(cfg, steps[..i + 1]);
    RunKeepsInv(cfg, steps[..i + 1]);
    RunKeepsInv(cfg, steps);
    assert OneOk(u, d) && OneOk(s, d) && OneOk(s, c);
    assert c != d ==> TwoOk(s, c, d);
  }

  /** The call begins at `b` and returns Ok at `r`. */
  predicate Spans(steps: seq<Step>, c: nat, b: nat, r: nat) {
    && b < r < |steps|
    && steps[b].OfCall? && steps[b].c == c && steps[b].a.Begin? && steps[r] == OfCall(c, Return)
  }

  /** Two calls on one session that both return Ok overlap in time: each of
      them begins before the other returns. */
  lemma TwoSuccessesOverlap(cfg: Config, steps: seq<Step>, c: nat, d: nat)
    requires Run(cfg, steps).Some? && c != d
    requires var s := Run(cfg, steps).value;
             && c in s.calls && d in s.calls && s.calls[c].id == s.calls[d].id
             && s.calls[c].phase.ReturnedOk? && s.calls[d].phase.ReturnedOk?
    ensures exists bc, rc, bd, rd ::
              Spans(steps, c, bc, rc) && Spans(steps, d, bd, rd) && bc < rd && bd < rc
  {
    hide Exec, Replies.Decoding, RoutingOk, PeerOk, FifoOk, OriginOk, CompletionsOk, RegistryOk;
    RunKeepsInv(cfg, steps);
    RunIsTimed(cfg, steps);
    var s := Run(cfg, steps).value;
    assert OneOk(s, c) && OneOk(s, d) && TwoOk(s, c, d) && TwoOk(s, d, c);
    assert CallTimed(steps, c, s.calls[c]) && CallTimed(steps, d, s.calls[d]);
    var bc, rc, bd, rd := s.calls[c].begunAt, s.calls[c].endedAt.value, s.calls[d].begunAt, s.calls[d].endedAt.value;
    assert Spans(steps, c, bc, rc) && Spans(steps, d, bd, rd) && bc < rd && bd < rc;
  }

  /** Two calls never return the same packet, and a reply is always the
      decoding of a packet that the batch decoder finds for the session in the
      stream behind the session's registration. */
  lemma RepliesComeFromTheStream(cfg: Config, steps: seq<Step>, c: nat)
    requires Run(cfg, steps).Some?
    requires var s := Run(cfg, steps).value; c in s.calls && s.calls[c].phase.ReturnedOk?
    ensures var s := Run(cfg, steps).value;
            var call := s.calls[c];
            && call.id in s.sessions && call.took.Some?
            && s.sessions[call.id].since <= |s.routed| <= |Decode(cfg.secret, cfg.stream)|
            && FromStream(cfg, call, s.sessions[call.id].since, |s.routed|)
            && forall d :: d in s.calls && d != c && s.calls[d].id == call.id ==> s.calls[d].took != call.took
  {
    hide Exec, Replies.Decoding, OfSession, Decode, PeerOk, FifoOk, OriginOk, CompletionsOk, RegistryOk;
    RunKeepsInv(cfg, steps);
    var s := Run(cfg, steps).value;
    var call := s.calls[c];
    assert OneOk(s, c);
    assert SessionRouted(s.sessions[call.id], call.id, s.routed);
    var since := s.sessions[call.id].since;
    assert Decode(cfg.secret, cfg.stream)[since..|s.routed|] == s.routed[since..];
    forall d | d in s.calls && d != c && s.calls[d].id == call.id
      ensures s.calls[d].took != call.took
    {
      assert TwoOk(s, c, d);
    }
  }

  predicate FromStream(cfg: Config, call: Call, since: nat, until: nat)
    requires since <= until <= |Decode(cfg.secret, cfg.stream)| && call.took.Some? && call.phase.ReturnedOk?
  {
    var mine := OfSession(Decode(cfg.secret, cfg.stream)[since..until], call.id);
    call.took.value < |mine| && Replies.Decoding(mine[call.took.value].body) == Success(call.phase.reply)
  }

  /** The call is on the session, has completed it, and got there by decoding
      a packet received on it. */
  predicate AnsweredBy(s: State, id: u32, c: nat) {
    Completer(s, id, c) && id in s.sessions && TookItsReply(s.calls[c], s.sessions[id], s.calls[c].phase.reply)
  }

  /** A session is complete if and only if some call on it has completed it
      after decoding a reply, or its holder has called `complete`. */
  lemma CompleteMeansAnsweredOrMarked(cfg: Config, steps: seq<Step>, id: u32)
    requires Run(cfg, steps).Some? && id in Run(cfg, steps).value.sessions
    ensures var s := Run(cfg, steps).value;
            s.sessions[id].complete
            <==> OfOwner(MarkComplete(id)) in steps || exists c :: AnsweredBy(s, id, c)
  {
    hide Exec, Replies.Decoding, RoutingOk, PeerOk, FifoOk, OriginOk, RegistryOk;
    RunKeepsInv(cfg, steps);
    var s := Run(cfg, steps).value;
    if s.sessions[id].marked {
      MarksComeFromSteps(cfg, steps, id);
    } else if s.sessions[id].complete {
      assert HasCompleter(s, id);
      var c :| Completer(s, id, c);
      assert OneOk(s, c);
      assert AnsweredBy(s, id, c);
    }
    if OfOwner(MarkComplete(id)) in steps {
      var n :| 0 <= n < |steps| && steps[n] == OfOwner(MarkComplete(id));
      MarksLast(cfg, steps, n, id);
    } else if exists c :: AnsweredBy(s, id, c) {
      var c :| AnsweredBy(s, id, c);
      assert OneOk(s, c);
    }
  }

  // ---------- Sequence numbers ----------

  /** However calls interleave, no two on a session draw the same number: the
      draws are distinct, so the packets of two calls bear the same sequence
      number only when a multiple of 128 draws lies between them. */
  lemma NumbersAreDrawnOnce(cfg: Config, steps: seq<Step>, c: nat, d: nat)
    requires Run(cfg, steps).Some? && c != d
    requires var s := Run(cfg, steps).value;
             && c in s.calls && d in s.calls && s.calls[c].id == s.calls[d].id
             && s.calls[c].number.Some? && s.calls[d].number.Some?
    ensures var i, j := Run(cfg, steps).value.calls[c].number.value, Run(cfg, steps).value.calls[d].number.value;
            && i != j
            && (Sessions.SequenceNumberAt(i) == Sessions.SequenceNumberAt(j) <==> (i - j) % 128 == 0)
  {
    hide Exec, RoutingOk, PeerOk, FifoOk, OriginOk, CompletionsOk, RegistryOk;
    RunKeepsInv(cfg, steps);
    var s := Run(cfg, steps).value;
    assert TwoOk(s, c, d);
    Sessions.SequenceNumbersRepeat(s.calls[c].number.value, s.calls[d].number.value);
  }

  // ---------- Both ends ----------

  /** When the peer runs the same write loop, however early its bytes break
      off, a session receives the peer's packets for it, opened, in the order
      they were written. */
  lemma PeerPacketsReachTheirSession(cfg: Config, sent: seq<Packet>, steps: seq<Step>, id: u32)
    requires AllSized(sent) && cfg.stream <= Emit(cfg.secret, sent).bytes
    requires Run(cfg, steps).Some? && id in Run(cfg, steps).value.sessions
    ensures var s := Run(cfg, steps).value;
            var session, all := s.sessions[id], Opened(cfg.secret, sent);
            && session.since <= |s.routed| <= |all|
            && session.consumed <= OfSession(all[session.since..|s.routed|], id)
            && (session.open ==> session.consumed + session.queue == OfSession(all[session.since..|s.routed|], id))
  {
    hide OfSession, Decode, Exec, Emit, Opened, CallsOk, CompletionsOk, FifoOk, OriginOk, PeerOk, RegistryOk;
    RunKeepsInv(cfg, steps);
    var s := Run(cfg, steps).value;
    StreamFidelity(cfg.secret, sent);
    TruncationIsSafe(cfg.secret, Emit(cfg.secret, sent).bytes, cfg.stream);
    assert SessionRouted(s.sessions[id], id, s.routed);
    assert s.routed <= Decode(cfg.secret, cfg.stream) <= Opened(cfg.secret, sent);
    assert s.routed[s.sessions[id].since..] == Opened(cfg.secret, sent)[s.sessions[id].since..|s.routed|];
  }

  // ---------- The outbound side ----------

  /** What the peer sees, in every reachable state: the queue is bounded and
      first in, first out; and the peer decodes the wire to exactly the packets
      written if and only if each of those had the length it announces, which
      is always so on a connection with a key. */
  lemma PeerSeesTheQueue(cfg: Config, steps: seq<Step>)
    requires Run(cfg, steps).Some?
    ensures var s := Run(cfg, steps).value;
            && |s.outbound| <= 32 && s.written <= s.submitted
            && (s.writer.Taking? ==> s.written + s.outbound == s.submitted)
            && (s.writer.Writing? ==> s.written + ([s.writer.packet] + s.outbound) == s.submitted)
            && (Decode(cfg.secret, s.wire) == s.written <==> AllSized(s.written))
            && (cfg.secret.Some? ==> AllSized(s.written))
  {
    hide Exec, Decode, Leftover, RoutingOk, CallsOk, CompletionsOk, OriginOk, RegistryOk;
    RunKeepsInv(cfg, steps);
    DecodedAreSized(cfg.secret, Run(cfg, steps).value.wire);
  }

  /** The frame in flight: with a key, a packet that does not have the length
      it announces is never written, because taking it panics, and nothing else
      makes the write loop panic. */
  lemma OnlyUnsizedPacketsPanic(cfg: Config, steps: seq<Step>)
    requires Run(cfg, steps).Some?
    ensures var s := Run(cfg, steps).value;
            && (s.writer.Writing? && cfg.secret.Some? ==> s.writer.packet.Sized())
            && (s.writer.WriterPanicked? ==>
                  cfg.secret.Some? && |s.written| < |s.submitted| && !s.submitted[|s.written|].Sized())
  {
    hide Exec, Seal, Decode, Leftover, RoutingOk, CallsOk, CompletionsOk, OriginOk, RegistryOk;
    RunKeepsInv(cfg, steps);
    var s := Run(cfg, steps).value;
    if s.writer.Writing? || s.writer.WriterPanicked? {
      SubmittedSeals(cfg.secret, s, |s.written|);
    }
  }

  /** Confidentiality on every schedule: with a key, whatever is on the wire,
      a torn frame included, holds no clear packet.  What anyone reads off it
      are the packets written, in order, every one of them scrambled. */
  lemma WireIsScrambled(cfg: Config, steps: seq<Step>)
    requires Run(cfg, steps).Some? && cfg.secret.Some?
    ensures var s := Run(cfg, steps).value;
            var seen := Decode(None, s.wire);
            && |seen| == |s.written|
            && (forall i :: 0 <= i < |seen| ==> !seen[i].Clear() && Scrambled(cfg.secret.value, s.written[i], seen[i]))
            && (s.writer.WriterEnded? ==> Decode(None, s.wire + s.writer.torn) == seen)
  {
    hide Exec, Seal, Decode, Leftover, Emit, Scrambled, Packets.Encoding;
    hide RoutingOk, CallsOk, CompletionsOk, OriginOk, RegistryOk;
    RunKeepsInv(cfg, steps);
    var s := Run(cfg, steps).value;
    forall i | 0 <= i < |s.written|
      ensures s.written[i].Clear()
    {
      SubmittedSeals(cfg.secret, s, i);
    }
    var seen := EmittedFrames(cfg.secret.value, s.written);
    forall i | 0 <= i < |seen|
      ensures !seen[i].Clear()
    {
      ScrambledIsSized(cfg.secret.value, s.written[i], seen[i]);
    }
    if s.writer.WriterEnded? {
      var torn, p := s.writer.torn, s.submitted[|s.written|];
      SubmittedSeals(cfg.secret, s, |s.written|);
      SealKeepsLength(cfg.secret, p);
      var sealed := Seal(cfg.secret, p).value;
      TornFrame(None, sealed, |torn|);
      assert Packets.Encoding(sealed)[..|torn|] == torn;
      DecodeInTwoPieces(None, s.wire, torn);
      assert [] + torn == torn;
    }
  }

  /** A frame torn by a failing write: it belongs to the next packet of the
      queue, and the peer still decodes exactly the packets written unless the
      bytes reach the end that the frame's header announces, which they do for
      no packet of the announced length. */
  lemma TornFrameOnTheWire(cfg: Config, steps: seq<Step>)
    requires Run(cfg, steps).Some? && Run(cfg, steps).value.writer.WriterEnded?
    ensures var s := Run(cfg, steps).value;
            && |s.written| < |s.submitted|
            && var torn, p := s.writer.torn, s.submitted[|s.written|];
               && (cfg.secret.Some? ==> p.Sized())
               && (p.Sized() ==> |torn| < HEADER_LENGTH + p.header.length)
               && (AllSized(s.written) ==>
                     (Decode(cfg.secret, s.wire + torn) == s.written <==> |torn| < HEADER_LENGTH + p.header.length))
  {
    hide Exec, Seal, Decode, Leftover, Packets.Encoding, RoutingOk, CallsOk, CompletionsOk, OriginOk, RegistryOk;
    RunKeepsInv(cfg, steps);
    var s := Run(cfg, steps).value;
    var torn, p, k := s.writer.torn, s.submitted[|s.written|], cfg.secret;
    SubmittedSeals(k, s, |s.written|);
    var sealed := Seal(k, p).value;
    SealKeepsLength(k, p);
    TornFrame(k, sealed, |torn|);
    assert Packets.Encoding(sealed)[..|torn|] == torn;
    if AllSized(s.written) {
      DecodeInTwoPieces(k, s.wire, torn);
      assert [] + torn == torn;
      assert s.written + Decode(k, torn) == s.written <==> Decode(k, torn) == [];
    }
  }

  lemma SealKeepsLength(k: Secret, p: Packet)
    ensures Seal(k, p).Returned? ==>
              Seal(k, p).value.header.length == p.header.length && (p.Sized() ==> Seal(k, p).value.Sized())
  {
  }

  /** The outbound half of the size invariant, exactly: a packet waiting to be
      written has the length it announces if and only if the request of the
      call that queued it fits the 32-bit length field. */
  lemma OutboundPacketIsSized(cfg: Config, steps: seq<Step>, i: nat)
    requires Run(cfg, steps).Some? && i < |Run(cfg, steps).value.outbound|
    ensures var s := Run(cfg, steps).value;
            exists c :: SubmittedBy(s, s.outbound[i], c) && (s.outbound[i].Sized() <==> Fits(s.calls[c].request))
  {
    hide Exec, Fits, Sessions.RequestPacket, RoutingOk, CallsOk, CompletionsOk, PeerOk, RegistryOk;
    RunKeepsInv(cfg, steps);
    var s := Run(cfg, steps).value;
    var p := s.outbound[i];
    assert p in s.submitted;
    var n :| 0 <= n < |s.submitted| && s.submitted[n] == p;
    assert HasOrigin(s, p);
    var c :| SubmittedBy(s, p, c);
    var call := s.calls[c];
    RequestPacketIsSized(call.id, Sessions.SequenceNumberAt(call.number.value), call.request, None);
    assert SubmittedBy(s, p, c) && (p.Sized() <==> Fits(call.request));
  }

  /** What the peer decodes from the wire are requests of this connection's
      calls: each is a clear accounting packet of the default version with the
      id of a call's session and the number that call drew, and its body decodes
      to that call's request when every length in it fits its field. */
  lemma PeerReadsTheRequests(cfg: Config, steps: seq<Step>, i: nat)
    requires Run(cfg, steps).Some? && AllSized(Run(cfg, steps).value.written)
    requires i < |Decode(cfg.secret, Run(cfg, steps).value.wire)|
    ensures var s := Run(cfg, steps).value;
            exists c :: ReadsAs(s, Decode(cfg.secret, s.wire)[i], c)
  {
    hide Exec, Decode, Requests.Encoding, Requests.Decoding, RoutingOk, CallsOk, CompletionsOk, RegistryOk;
    RunKeepsInv(cfg, steps);
    var s := Run(cfg, steps).value;
    assert Decode(cfg.secret, s.wire) == s.written <= s.submitted;
    var p := s.submitted[i];
    assert HasOrigin(s, p);
    var c :| SubmittedBy(s, p, c);
    Requests.EncodeThenDecode(s.calls[c].request, []);
    assert p.body + [] == p.body;
    DecodedAreSized(cfg.secret, s.wire);
    assert ReadsAs(s, p, c);
  }

  predicate ReadsAs(s: State, p: Packet, c: nat) {
    && c in s.calls && s.calls[c].number.Some? && p.Sized()
    && p.header == Headers.Header(Major1, MinorDefault, Accounting,
                                  Sessions.SequenceNumberAt(s.calls[c].number.value), HeaderFlags(true, false),
                                  s.calls[c].id, p.header.length)
    && (s.calls[c].request.WithinBounds() ==> Requests.Decoding(p.body) == Success(s.calls[c].request))
  }

  // ---------- The registry ----------

  /** The ids of all sessions ever created are pairwise distinct, and each is
      bound to the call that created it. */
  lemma SessionIdsAreDistinct(cfg: Config, steps: seq<Step>, j: nat, k: nat)
    requires Run(cfg, steps).Some?
    requires var s := Run(cfg, steps).value;
             j in s.creators && k in s.creators && s.creators[j].Registered? && s.creators[k].Registered?
    ensures var s := Run(cfg, steps).value;
            && s.creators[k].id in s.sessions && s.sessions[s.creators[k].id].owner == k
            && (j != k ==> s.creators[j].id != s.creators[k].id)
  {
    hide Exec;
    RunKeepsInv(cfg, steps);
    var s := Run(cfg, steps).value;
    hide RoutingOk, CallsOk, CompletionsOk, OriginOk, PeerOk, FifoOk;
    assert CreatorOk(s, j) && CreatorOk(s, k);
  }

  /** Once the accept flag has fallen, both loops have ended; and whoever
      registered a session, before or after, had checked the flag before the
      step that lowered it. */
  lemma FlagFallsLast(cfg: Config, steps: seq<Step>, k: nat)
    requires Run(cfg, steps).Some? && !Run(cfg, steps).value.accepting
    ensures var s := Run(cfg, steps).value;
            && s.reader.ReaderEnded? && s.writer.WriterEnded?
            && OfOwner(DisableSessions) in steps
            && (k in s.creators && s.creators[k].Registered? ==>
                  exists i, j ::
                    0 <= i < j < |steps| && steps[i] == OfCreator(k, CheckFlag) && steps[j] == OfOwner(DisableSessions))
  {
    hide Exec, RoutingOk, CallsOk, CompletionsOk, OriginOk, PeerOk, FifoOk, CallTimed, CreatorOk, OwnerOk;
    RunKeepsInv(cfg, steps);
    RunIsTimed(cfg, steps);
    var s := Run(cfg, steps).value;
    var j := s.fellAt.value;
    assert steps[j] == OfOwner(DisableSessions);
    if k in s.creators && s.creators[k].Registered? {
      CheckedBefore(s, k);
      var i := s.creators[k].allowedAt;
      assert CreatorTimed(steps, k, s.creators[k]);
      assert 0 <= i < j < |steps| && steps[i] == OfCreator(k, CheckFlag);
    }
  }

  lemma CheckedBefore(s: State, k: nat)
    requires RegistryOk(s) && k in s.creators && s.creators[k].Registered? && s.fellAt.Some?
    ensures s.creators[k].allowedAt < s.fellAt.value
  {
    hide OwnerOk;
    assert CreatorOk(s, k);
  }
}
