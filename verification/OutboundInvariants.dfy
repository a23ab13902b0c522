/** The outbound side: which packets have the length they announce, where each
    of them comes from, and what the bytes on the wire decode to. */
module OutboundInvariants {
  import opened Primitives
  import opened Enumerations
  import opened Packets
  import opened Framing
  import opened ConnectionSystem
  import opened CallInvariants
  import opened ConnectionInvariants
  import Requests = AccountingRequests
  import Replies = AccountingReplies
  import Sessions

  predicate Fits(request: Requests.AccountingRequest) {
    |Requests.Encoding(request)| < 0x1_0000_0000
  }

  /** A request packet has the length it announces exactly when its body fits
      the length field; when it does not, obfuscating it in place panics. */
  lemma RequestPacketIsSized(id: u32, seqNo: byte, request: Requests.AccountingRequest, k: Secret)
    ensures Sessions.RequestPacket(id, seqNo, request).Sized() <==> Fits(request)
    ensures Sessions.RequestPacket(id, seqNo, request).Clear()
    ensures Seal(k, Sessions.RequestPacket(id, seqNo, request)).Panicked? <==> k.Some? && !Fits(request)
  {
    var n := |Requests.Encoding(request)|;
    if !Fits(request) {
      assert n % 0x1_0000_0000 < n;
    }
  }

  /** Such requests exist: one whose user name is 2^32 bytes long. */
  lemma OversizedRequestExists()
    ensures exists request: Requests.AccountingRequest :: !Fits(request)
  {
    var user := seq<byte>(0x1_0000_0000, _ => 0x41);
    AsciiIsText(user, 0);
    var request := Requests.AccountingRequest(
      AccountingFlags(true, false, false), MethodNone, 0, TypeNotSet, ServiceNone, user, [], [], []);
    assert |Requests.Encoding(request)| >= |user|;
    assert !Fits(request);
  }

  lemma CallsKeepRequests(s: State, c: nat, step: CallStep, t: State)
    requires CallApply(s, c, step) == Some(t)
    ensures forall x :: x in s.calls ==>
              && x in t.calls && t.calls[x].request == s.calls[x].request && t.calls[x].id == s.calls[x].id
              && t.calls[x].begunAt == s.calls[x].begunAt
  {
    hide CallMove;
    if !step.Begin? {
      var call := s.calls[c];
      var m := CallMove(ViewOf(s), c, call, s.sessions[call.id], step).value;
      MoveKeepsId(ViewOf(s), c, call, s.sessions[call.id], step, m);
    }
  }

  // ---------- Where outbound packets come from ----------

  /** It is the packet of a numbered call. */
  predicate SubmittedBy(s: State, p: Packet, c: nat) {
    && c in s.calls && s.calls[c].number.Some?
    && p == NumberedPacket(s.calls[c])
  }

  ghost predicate HasOrigin(s: State, p: Packet) {
    exists c :: SubmittedBy(s, p, c)
  }

  /** Every packet that entered the outbound queue carries the request of some
      call, under the id of that call's session and the number it drew. */
  ghost predicate OriginOk(s: State) {
    forall i :: 0 <= i < |s.submitted| ==> HasOrigin(s, s.submitted[i])
  }

  lemma NumbersStay(v: View, c: nat, call: Call, session: Session, step: CallStep, m: Move)
    requires NumberOk(call, session) && CallMove(v, c, call, session, step) == Some(m)
    ensures call.number.Some? ==> m.call.number == call.number
    ensures m.sent != [] ==>
              m.call.number.Some? && m.sent == [NumberedPacket(m.call)]
  {
    hide Sessions.RequestPacket, Sessions.SequenceNumberAt, Replies.Decoding;
  }

  lemma CallKeepsOrigin(s: State, c: nat, step: CallStep, t: State)
    requires OriginOk(s) && CallsOk(s) && CallApply(s, c, step) == Some(t)
    ensures OriginOk(t)
  {
    hide CallMove, Requests.Encoding, Sessions.RequestPacket, Sessions.SequenceNumberAt, CallsOk;
    CallsKeepRequests(s, c, step, t);
    if !step.Begin? {
      var call, v := s.calls[c], ViewOf(s);
      var session := s.sessions[call.id];
      var m := CallMove(v, c, call, session, step).value;
      assert NumberOk(call, session) by {
        CallIsNumbered(s, c);
      }
      SentOnlyWithRoom(v, c, call, session, step, m);
      NumbersStay(v, c, call, session, step, m);
      MoveKeepsId(v, c, call, session, step, m);
    }
    forall i | 0 <= i < |t.submitted|
      ensures HasOrigin(t, t.submitted[i])
    {
      if i < |s.submitted| {
        assert HasOrigin(s, s.submitted[i]);
        var d :| SubmittedBy(s, s.submitted[i], d);
        assert SubmittedBy(t, t.submitted[i], d);
      } else {
        assert SubmittedBy(t, t.submitted[i], c);
      }
    }
  }

  lemma CallIsNumbered(s: State, c: nat)
    requires CallsOk(s) && c in s.calls
    ensures s.calls[c].id in s.sessions && NumberOk(s.calls[c], s.sessions[s.calls[c].id])
  {
    assert OneOk(s, c);
  }

  lemma StepKeepsOrigin(cfg: Config, s: State, step: Step, t: State)
    requires OriginOk(s) && CallsOk(s) && Apply(cfg, s, step) == Some(t)
    ensures OriginOk(t)
  {
    hide ReaderApply, WriterApply, CreatorApply, CallApply, OwnerApply, CallsOk;
    var u := Act(cfg, s, step).value;
    match step {
      case OfCall(c, a) => CallKeepsOrigin(s, c, a, u);
      case OfReader(r) => ReaderFrame(cfg, s, r, u);
      case OfWriter(w) => WriterFrame(cfg, s, w, u);
      case OfCreator(k, n) => CreatorFrame(s, k, n, u);
      case OfOwner(o) => OwnerFrame(s, o, u);
    }
    if !step.OfCall? {
      SameOrigin(s, u);
    }
    SameOrigin(u, t);
  }

  lemma SameOrigin(s: State, t: State)
    requires OriginOk(s) && t.calls == s.calls && t.submitted == s.submitted
    ensures OriginOk(t)
  {
    forall i | 0 <= i < |t.submitted|
      ensures HasOrigin(t, t.submitted[i])
    {
      assert HasOrigin(s, s.submitted[i]);
      var c :| SubmittedBy(s, s.submitted[i], c);
      assert SubmittedBy(t, t.submitted[i], c);
    }
  }

  // ---------- What the wire holds ----------

  /** A packet that entered the queue is clear, and sealing it panics exactly
      when there is a key and its body is longer than it announces. */
  lemma SubmittedSeals(k: Secret, s: State, i: nat)
    requires OriginOk(s) && i < |s.submitted|
    ensures s.submitted[i].Clear()
    ensures Seal(k, s.submitted[i]).Panicked? <==> k.Some? && !s.submitted[i].Sized()
  {
    hide Seal, Fits, Sessions.RequestPacket, Sessions.SequenceNumberAt;
    assert HasOrigin(s, s.submitted[i]);
    var c :| SubmittedBy(s, s.submitted[i], c);
    var call := s.calls[c];
    RequestPacketIsSized(call.id, Sessions.SequenceNumberAt(call.number.value), call.request, k);
  }

  /** The packet whose frame is on its way or was the last one taken. */
  function Front(s: State): Packet
    requires |s.written| < |s.submitted|
  {
    s.submitted[|s.written|]
  }

  /** What is on the wire: the written packets, as long as all of them had the
      announced length, which a key enforces; then what is left of the front
      packet when writing it failed.  Only that packet can have panicked. */
  predicate PeerOk(cfg: Config, s: State) {
    && (AllSized(s.written) ==> Leftover(s.wire) == [] && Decode(cfg.secret, s.wire) == s.written)
    && (cfg.secret.Some? ==> AllSized(s.written))
    && match s.writer
       case Taking => true
       case Writing(packet) => Seal(cfg.secret, packet).Returned?
       case WriterEnded(torn) =>
         && |s.written| < |s.submitted| && Seal(cfg.secret, Front(s)).Returned?
         && torn < Packets.Encoding(Seal(cfg.secret, Front(s)).value)
       case WriterPanicked => |s.written| < |s.submitted| && Seal(cfg.secret, Front(s)).Panicked?
  }

  lemma WriteExtendsWire(k: Secret, wire: seq<byte>, written: seq<Packet>, p: Packet)
    requires Leftover(wire) == [] && Decode(k, wire) == written && p.Sized() && p.Clear()
    ensures var e := Packets.Encoding(Seal(k, p).value);
            Leftover(wire + e) == [] && Decode(k, wire + e) == written + [p]
  {
    hide NextFrame, Seal, Open;
    OpenSealed(k, p);
    var sealed := Seal(k, p).value;
    var e := Packets.Encoding(sealed);
    OneFrame(k, sealed);
    DecodeInTwoPieces(k, wire, e);
    assert [] + e == e;
  }

  lemma WriterKeepsPeer(cfg: Config, s: State, step: WriterStep, t: State)
    requires PeerOk(cfg, s) && FifoOk(s) && OriginOk(s) && WriterApply(cfg, s, step) == Some(t)
    ensures PeerOk(cfg, t)
  {
    hide Seal, Decode, Leftover, Packets.Encoding, OriginOk;
    match step
    case Take =>
      assert Front(s) == s.outbound[0];
    case Write =>
      var p := s.writer.packet;
      assert Front(s) == p;
      SubmittedSeals(cfg.secret, s, |s.written|);
      assert t.written[|s.written|] == p && t.written[..|s.written|] == s.written;
      if AllSized(t.written) {
        AllSizedFront(s.written, p);
        WriteExtendsWire(cfg.secret, s.wire, s.written, p);
      }
    case WriteFails(n) =>
      assert Front(s) == s.writer.packet;
  }

  lemma AllSizedFront(packets: seq<Packet>, p: Packet)
    ensures AllSized(packets + [p]) <==> AllSized(packets) && p.Sized()
  {
    assert forall i :: 0 <= i < |packets| ==> (packets + [p])[i] == packets[i];
    assert (packets + [p])[|packets|] == p;
  }

  /** The wire is what the write loop emits for the packets written. */
  predicate WireOk(cfg: Config, s: State) {
    Emit(cfg.secret, s.written) == Emission(s.wire, false)
  }

  lemma StepKeepsWire(cfg: Config, s: State, step: Step, t: State)
    requires WireOk(cfg, s) && Apply(cfg, s, step) == Some(t)
    ensures WireOk(cfg, t)
  {
    hide ReaderApply, CreatorApply, CallApply, OwnerApply, Seal, Emit, Packets.Encoding;
    var u := Act(cfg, s, step).value;
    match step
    case OfCall(c, a) => CallsAdvanceSessions(s, c, a, u);
    case OfReader(r) => ReaderFrame(cfg, s, r, u);
    case OfWriter(w) =>
      if w.Write? {
        EmitOneMore(cfg.secret, s.written, s.writer.packet);
      }
    case OfCreator(k, n) => CreatorFrame(s, k, n, u);
    case OfOwner(o) => OwnerFrame(s, o, u);
  }

  lemma SamePeer(cfg: Config, s: State, t: State)
    requires PeerOk(cfg, s) && s.submitted <= t.submitted
    requires t.wire == s.wire && t.written == s.written && t.writer == s.writer
    ensures PeerOk(cfg, t)
  {
    hide Decode, Leftover, Seal, Packets.Encoding;
  }

  lemma StepKeepsPeer(cfg: Config, s: State, step: Step, t: State)
    requires PeerOk(cfg, s) && FifoOk(s) && OriginOk(s) && Apply(cfg, s, step) == Some(t)
    ensures PeerOk(cfg, t)
  {
    hide ReaderApply, WriterApply, CreatorApply, CallApply, OwnerApply, PeerOk, FifoOk, OriginOk;
    var u := Act(cfg, s, step).value;
    match step {
      case OfCall(c, a) => CallsAdvanceSessions(s, c, a, u); SubmittedGrows(s, c, a, u);
      case OfReader(r) => ReaderFrame(cfg, s, r, u);
      case OfWriter(w) => WriterKeepsPeer(cfg, s, w, u);
      case OfCreator(k, n) => CreatorFrame(s, k, n, u);
      case OfOwner(o) => OwnerFrame(s, o, u);
    }
    if !step.OfWriter? {
      SamePeer(cfg, s, u);
    }
    SamePeer(cfg, u, t);
  }

  lemma SubmittedGrows(s: State, c: nat, step: CallStep, t: State)
    requires CallApply(s, c, step) == Some(t)
    ensures s.submitted <= t.submitted
  {
    hide CallMove;
  }
}
