/** The byte stream of a connection: how the write loop turns packets into
    bytes and what the read loop recovers from any byte stream. */
module Framing {
  import opened Primitives
  import opened Obfuscation
  import opened Packets
  import Headers

  const HEADER_LENGTH := Headers.HEADER_LENGTH

  /** The optional obfuscation key of a connection. */
  type Secret = Option<Cipher>

  // ---------- One packet each way ----------

  /** What the write loop does to a packet before it is serialised. */
  function Seal(k: Secret, p: Packet): Attempt<Packet> {
    match k
    case Some(c) => Obfuscated(c, p)
    case None => Returned(p)
  }

  /** What the read loop does to a packet after it is framed. */
  function Open(k: Secret, p: Packet): (q: Packet)
    requires p.Sized()
    ensures q.Sized() && q.header.sessionId == p.header.sessionId
  {
    match k
    case Some(c) => Deobfuscated(c, p).value
    case None => p
  }

  /** Opening what was sealed gives the same as opening the packet itself; so
      a clear packet arrives as it was sent. */
  lemma OpenSealed(k: Secret, p: Packet)
    requires p.Sized()
    ensures Seal(k, p).Returned? && Seal(k, p).value.Sized()
    ensures Open(k, Seal(k, p).value) == Open(k, p)
    ensures p.Clear() ==> Open(k, p) == p
  {
    if k.Some? {
      ObfuscationAlgebra(k.value, p);
    }
  }

  /** With a key nothing leaves in the clear: a clear packet is scrambled, or
      the write loop panics because its body is longer than it announces. */
  lemma SealScrambles(k: Secret, p: Packet)
    ensures k.None? ==> Seal(k, p) == Returned(p)
    ensures Seal(k, p).Panicked? <==> k.Some? && p.Clear() && |p.body| > p.header.length
    ensures k.Some? && Seal(k, p).Returned? ==>
              && !Seal(k, p).value.Clear()
              && if p.Clear() then Scrambled(k.value, p, Seal(k, p).value) else Seal(k, p).value == p
  {
    if k.Some? && |p.body| <= p.header.length {
      ObfuscationScrambles(k.value, p);
    }
  }

  /** With a key everything is delivered in the clear: a scrambled packet as the
      one it came from, a clear one as it is. */
  lemma OpenUnscrambles(k: Secret, p: Packet)
    requires p.Sized()
    ensures k.None? ==> Open(k, p) == p
    ensures k.Some? ==>
              && Open(k, p).Clear()
              && if p.Clear() then Open(k, p) == p else Scrambled(k.value, Open(k, p), p)
  {
    if k.Some? {
      ObfuscationScrambles(k.value, p);
    }
  }

  // ---------- Reading ----------

  /** What one iteration of the read loop finds at the front of the stream. */
  datatype Frame =
    | Starved                                       // the header or the body ends early
    | Rejected(rest: seq<byte>)                     // an illegal header: 12 bytes are skipped
    | Framed(packet: Packet, rest: seq<byte>)       // header and body, as received

  function NextFrame(stream: seq<byte>): (f: Frame)
    ensures f.Rejected? ==> |f.rest| + HEADER_LENGTH == |stream|
    ensures f.Framed? ==> f.packet.Sized() && |f.rest| + HEADER_LENGTH + f.packet.header.length == |stream|
  {
    if |stream| < HEADER_LENGTH then Starved
    else
      match Headers.FromBytes(stream[..HEADER_LENGTH])
      case Failure(_) => Rejected(stream[HEADER_LENGTH..])
      case Success(h) =>
        var end := HEADER_LENGTH + h.length;
        if |stream| < end then Starved
        else Framed(Packet(h, stream[HEADER_LENGTH..end]), stream[end..])
  }

  /** The packets the read loop recovers from a whole stream. */
  function Decode(k: Secret, stream: seq<byte>): seq<Packet>
    decreases |stream|
  {
    match NextFrame(stream)
    case Starved => []
    case Rejected(rest) => Decode(k, rest)
    case Framed(packet, rest) => [Open(k, packet)] + Decode(k, rest)
  }

  lemma DecodeStep(k: Secret, stream: seq<byte>)
    ensures NextFrame(stream).Starved? ==> Decode(k, stream) == []
    ensures NextFrame(stream).Rejected? ==> Decode(k, stream) == Decode(k, NextFrame(stream).rest)
    ensures NextFrame(stream).Framed? ==>
              Decode(k, stream) == [Open(k, NextFrame(stream).packet)] + Decode(k, NextFrame(stream).rest)
  {
    hide NextFrame, Open;
  }

  /** The bytes on which the read loop starves. */
  function Leftover(stream: seq<byte>): seq<byte>
    decreases |stream|
  {
    match NextFrame(stream)
    case Starved => stream
    case Rejected(rest) => Leftover(rest)
    case Framed(_, rest) => Leftover(rest)
  }

  lemma {:induction false} DecodedAreSized(k: Secret, stream: seq<byte>)
    ensures forall p :: p in Decode(k, stream) ==> p.Sized()
    decreases |stream|
  {
    match NextFrame(stream)
    case Starved =>
    case Rejected(rest) => DecodedAreSized(k, rest);
    case Framed(_, rest) => DecodedAreSized(k, rest);
  }

  lemma {:induction false} DecodedAreClear(k: Secret, stream: seq<byte>)
    requires k.Some?
    ensures forall p :: p in Decode(k, stream) ==> p.Clear()
    decreases |stream|
  {
    hide Open;
    match NextFrame(stream)
    case Starved =>
    case Rejected(rest) => DecodedAreClear(k, rest);
    case Framed(packet, rest) =>
      OpenUnscrambles(k, packet);
      DecodedAreClear(k, rest);
  }

  /** More bytes behind a frame do not change it. */
  lemma FrameIsLocal(a: seq<byte>, b: seq<byte>)
    ensures NextFrame(a).Rejected? ==> NextFrame(a + b) == Rejected(NextFrame(a).rest + b)
    ensures NextFrame(a).Framed? ==> NextFrame(a + b) == Framed(NextFrame(a).packet, NextFrame(a).rest + b)
  {
    if |a| >= HEADER_LENGTH {
      assert (a + b)[..HEADER_LENGTH] == a[..HEADER_LENGTH];
      if NextFrame(a).Framed? {
        var end := HEADER_LENGTH + NextFrame(a).packet.header.length;
        assert (a + b)[HEADER_LENGTH..end] == a[HEADER_LENGTH..end];
        assert (a + b)[end..] == a[end..] + b;
      } else if NextFrame(a).Rejected? {
        assert (a + b)[HEADER_LENGTH..] == a[HEADER_LENGTH..] + b;
      }
    }
  }

  /** The read loop on a stream that arrives in two pieces: what it recovers
      from the first, then what it recovers from the bytes it starved on
      followed by the second. */
  lemma {:induction false} DecodeInTwoPieces(k: Secret, a: seq<byte>, b: seq<byte>)
    ensures Decode(k, a + b) == Decode(k, a) + Decode(k, Leftover(a) + b)
    ensures Leftover(a + b) == Leftover(Leftover(a) + b)
    decreases |a|
  {
    hide NextFrame;
    FrameIsLocal(a, b);
    match NextFrame(a)
    case Starved =>
    case Rejected(rest) => DecodeInTwoPieces(k, rest, b);
    case Framed(packet, rest) =>
      DecodeInTwoPieces(k, rest, b);
      assert [Open(k, packet)] + (Decode(k, rest) + Decode(k, Leftover(rest) + b))
          == ([Open(k, packet)] + Decode(k, rest)) + Decode(k, Leftover(rest) + b);
  }

  /** Cutting a stream anywhere, rejected headers included, only ever loses
      packets at the end: none is altered and none appears. */
  lemma TruncationIsSafe(k: Secret, stream: seq<byte>, cut: seq<byte>)
    requires cut <= stream
    ensures Decode(k, cut) <= Decode(k, stream)
  {
    var rest := stream[|cut|..];
    assert stream == cut + rest;
    DecodeInTwoPieces(k, cut, rest);
  }

  /** The loop stands at an iteration boundary after `n` bytes. */
  predicate Boundary(stream: seq<byte>, n: nat) {
    n <= |stream| && Leftover(stream[..n]) == []
  }

  /** A well-formed frame put in at a boundary adds its packet there and
      changes nothing before or after it. */
  lemma InsertionIsLocal(k: Secret, stream: seq<byte>, n: nat, p: Packet)
    requires Boundary(stream, n) && p.Sized()
    ensures Decode(k, stream[..n] + Packets.Encoding(p) + stream[n..])
         == Decode(k, stream[..n]) + [Open(k, p)] + Decode(k, stream[n..])
    ensures Decode(k, stream) == Decode(k, stream[..n]) + Decode(k, stream[n..])
  {
    hide NextFrame, Open;
    var a, b := stream[..n], stream[n..];
    var e := Packets.Encoding(p);
    assert a + e + b == a + (e + b) && stream == a + b;
    assert [] + b == b && [] + (e + b) == e + b;
    DecodeInTwoPieces(k, a, b);
    DecodeInTwoPieces(k, a, e + b);
    FrameOfEncoding(p, b);
  }

  // ---------- Routing by session ----------

  /** The packets of one session, in order. */
  function OfSession(packets: seq<Packet>, id: u32): seq<Packet> {
    if packets == [] then []
    else
      var p := packets[|packets| - 1];
      OfSession(packets[..|packets| - 1], id) + (if p.header.sessionId == id then [p] else [])
  }

  lemma {:induction false} OfSessionConcat(a: seq<Packet>, b: seq<Packet>, id: u32)
    ensures OfSession(a + b, id) == OfSession(a, id) + OfSession(b, id)
  {
    if b == [] {
      assert a + b == a;
    } else {
      var init := b[..|b| - 1];
      assert (a + b)[..|a + b| - 1] == a + init;
      OfSessionConcat(a, init, id);
    }
  }

  /** Framing isolation: a frame for one session, put in at any boundary of
      any stream, leaves what every other session receives unchanged. */
  lemma InsertionIsolatesSessions(k: Secret, stream: seq<byte>, n: nat, p: Packet, id: u32)
    requires Boundary(stream, n) && p.Sized() && p.header.sessionId != id
    ensures OfSession(Decode(k, stream[..n] + Packets.Encoding(p) + stream[n..]), id)
         == OfSession(Decode(k, stream), id)
  {
    hide Decode, Open, Leftover;
    InsertionIsLocal(k, stream, n, p);
    var a, b, q := Decode(k, stream[..n]), Decode(k, stream[n..]), [Open(k, p)];
    OfSessionConcat(a + q, b, id);
    OfSessionConcat(a, q, id);
    OfSessionConcat(a, b, id);
    assert q[..0] == [];
  }

  // ---------- Writing ----------

  /** What the write loop puts on the wire for a queue of packets, up to the
      first packet whose in-place conversion panics. */
  datatype Emission = Emission(bytes: seq<byte>, panicked: bool)

  function Emit(k: Secret, packets: seq<Packet>): Emission {
    if packets == [] then Emission([], false)
    else
      var init := Emit(k, packets[..|packets| - 1]);
      if init.panicked then init
      else
        match Seal(k, packets[|packets| - 1])
        case Panicked => Emission(init.bytes, true)
        case Returned(p) => Emission(init.bytes + Packets.Encoding(p), false)
  }

  predicate AllSized(packets: seq<Packet>) {
    forall i :: 0 <= i < |packets| ==> packets[i].Sized()
  }

  /** What the peer is meant to see. */
  function Opened(k: Secret, packets: seq<Packet>): (r: seq<Packet>)
    requires AllSized(packets)
    ensures |r| == |packets|
  {
    seq(|packets|, i requires 0 <= i < |packets| => Open(k, packets[i]))
  }

  lemma EmitOneMore(k: Secret, packets: seq<Packet>, p: Packet)
    ensures var before, after := Emit(k, packets), Emit(k, packets + [p]);
            && (before.panicked ==> after == before)
            && (!before.panicked && Seal(k, p).Panicked? ==> after == Emission(before.bytes, true))
            && (!before.panicked && Seal(k, p).Returned? ==>
                  after == Emission(before.bytes + Packets.Encoding(Seal(k, p).value), false))
  {
    hide Seal, Packets.Encoding;
    assert (packets + [p])[..|packets + [p]| - 1] == packets;
  }

  /** More packets only add bytes behind. */
  lemma {:induction false} EmissionGrows(k: Secret, packets: seq<Packet>, more: seq<Packet>)
    ensures Emit(k, packets).bytes <= Emit(k, packets + more).bytes
  {
    hide Seal, Packets.Encoding, Emit;
    if more == [] {
      assert packets + more == packets;
    } else {
      var init := more[..|more| - 1];
      EmissionGrows(k, packets, init);
      EmitOneMore(k, packets + init, more[|more| - 1]);
      assert packets + more == (packets + init) + [more[|more| - 1]];
    }
  }

  /** Nothing is written behind a panic. */
  lemma {:induction false} PanicEndsEmission(k: Secret, packets: seq<Packet>, more: seq<Packet>)
    requires Emit(k, packets).panicked
    ensures Emit(k, packets + more) == Emit(k, packets)
  {
    if more == [] {
      assert packets + more == packets;
    } else {
      var init := more[..|more| - 1];
      PanicEndsEmission(k, packets, init);
      EmitOneMore(k, packets + init, more[|more| - 1]);
      assert packets + more == (packets + init) + [more[|more| - 1]];
    }
  }

  /** A frame is read back as the packet it encodes, if and only if the body
      has the length its header announces. */
  lemma FrameOfEncoding(p: Packet, rest: seq<byte>)
    ensures NextFrame(Packets.Encoding(p) + rest) == Framed(p, rest) <==> p.Sized()
  {
    var stream := Packets.Encoding(p) + rest;
    assert stream[..HEADER_LENGTH] == Headers.Encoding(p.header) + [];
    Headers.EncodeThenDecode(p.header, []);
    if p.Sized() {
      var end := HEADER_LENGTH + p.header.length;
      assert stream[HEADER_LENGTH..end] == p.body;
      assert stream[end..] == rest;
    }
  }

  lemma OneFrame(k: Secret, p: Packet)
    requires p.Sized()
    ensures Decode(k, Packets.Encoding(p)) == [Open(k, p)]
    ensures Leftover(Packets.Encoding(p)) == []
  {
    hide Open;
    FrameOfEncoding(p, []);
    assert Packets.Encoding(p) + [] == Packets.Encoding(p);
    assert NextFrame([]) == Starved;
  }

  /** Stream fidelity: the read loop recovers from the bytes of the write loop
      every packet, in order, opened, and nothing is left over. */
  lemma {:induction false} StreamFidelity(k: Secret, packets: seq<Packet>)
    requires AllSized(packets)
    ensures !Emit(k, packets).panicked
    ensures Decode(k, Emit(k, packets).bytes) == Opened(k, packets)
    ensures Leftover(Emit(k, packets).bytes) == []
  {
    hide NextFrame, Seal, Open;
    if packets == [] {
      assert Decode(k, []) == [] && Leftover([]) == [] by {
        NothingDecodes(k);
      }
    } else {
      var init, last := packets[..|packets| - 1], packets[|packets| - 1];
      StreamFidelity(k, init);
      OpenSealed(k, last);
      var sealed := Seal(k, last).value;
      OneFrame(k, sealed);
      var a, e := Emit(k, init).bytes, Packets.Encoding(sealed);
      DecodeInTwoPieces(k, a, e);
      assert [] + e == e;
      assert Opened(k, packets) == Opened(k, init) + [Open(k, last)];
    }
  }

  /** What anyone reads off the wire of a write loop with a key: the packets
      in order, every one of them scrambled; and from a prefix of the bytes a
      prefix of that. */
  lemma EmissionIsScrambled(c: Cipher, packets: seq<Packet>, cut: seq<byte>)
    requires AllClear(packets) && forall i :: 0 <= i < |packets| ==> New(packets[i].header, packets[i].body).Success?
    requires cut <= Emit(Some(c), packets).bytes
    ensures var seen := Decode(None, Emit(Some(c), packets).bytes);
            && |seen| <= |packets| && (Emit(Some(c), packets).panicked <==> |seen| < |packets|)
            && (forall i :: 0 <= i < |seen| ==> Scrambled(c, packets[i], seen[i]))
            && Decode(None, cut) <= seen
  {
    var _ := EmittedFrames(c, packets);
    TruncationIsSafe(None, Emit(Some(c), packets).bytes, cut);
  }

  lemma {:induction false} EmittedFrames(c: Cipher, packets: seq<Packet>) returns (seen: seq<Packet>)
    requires AllClear(packets) && forall i :: 0 <= i < |packets| ==> New(packets[i].header, packets[i].body).Success?
    ensures var bytes := Emit(Some(c), packets).bytes; Decode(None, bytes) == seen && Leftover(bytes) == []
    ensures |seen| <= |packets| && (Emit(Some(c), packets).panicked <==> |seen| < |packets|)
    ensures forall i :: 0 <= i < |seen| ==> Scrambled(c, packets[i], seen[i])
  {
    hide NextFrame, Seal, Scrambled;
    if packets == [] {
      NothingDecodes(None);
      seen := [];
    } else {
      var init, last := packets[..|packets| - 1], packets[|packets| - 1];
      seen := EmittedFrames(c, init);
      SealScrambles(Some(c), last);
      if !Emit(Some(c), init).panicked && Seal(Some(c), last).Returned? {
        var sealed := Seal(Some(c), last).value;
        ScrambledIsSized(c, last, sealed);
        OneFrame(None, sealed);
        var a, e := Emit(Some(c), init).bytes, Packets.Encoding(sealed);
        DecodeInTwoPieces(None, a, e);
        assert [] + e == e;
        seen := seen + [sealed];
      }
    }
  }

  lemma ScrambledIsSized(c: Cipher, p: Packet, q: Packet)
    requires Scrambled(c, p, q) && New(p.header, p.body).Success?
    ensures q.Sized() && !q.Clear()
  {
  }

  lemma NothingDecodes(k: Secret)
    ensures Decode(k, []) == [] && Leftover([]) == []
  {
    assert NextFrame([]) == Starved;
  }

  predicate AllClear(packets: seq<Packet>) {
    forall i :: 0 <= i < |packets| ==> packets[i].Clear()
  }

  /** Clear packets come back equal, one for one, exactly when every one of
      them has a body of the length its header announces. */
  lemma FidelityOfClearPackets(k: Secret, packets: seq<Packet>)
    requires AllClear(packets)
    ensures !Emit(k, packets).panicked && Decode(k, Emit(k, packets).bytes) == packets
       <==> AllSized(packets)
  {
    DecodedAreSized(k, Emit(k, packets).bytes);
    if AllSized(packets) {
      StreamFidelity(k, packets);
      OpenedClear(k, packets);
    }
  }

  lemma OpenedClear(k: Secret, packets: seq<Packet>)
    requires AllClear(packets) && AllSized(packets)
    ensures Opened(k, packets) == packets
  {
    forall i | 0 <= i < |packets|
      ensures Opened(k, packets)[i] == packets[i]
    {
      OpenSealed(k, packets[i]);
    }
  }

  /** A write cut off inside a frame adds nothing for the reader exactly as
      long as the bytes do not reach the end that the header announces; for a
      body of the announced length they never do. */
  lemma TornFrame(k: Secret, p: Packet, n: nat)
    requires n <= |Packets.Encoding(p)|
    ensures Decode(k, Packets.Encoding(p)[..n]) == [] <==> n < HEADER_LENGTH + p.header.length
    ensures p.Sized() && n < |Packets.Encoding(p)| ==> n < HEADER_LENGTH + p.header.length
  {
    hide Open;
    var part := Packets.Encoding(p)[..n];
    if n >= HEADER_LENGTH {
      assert part[..HEADER_LENGTH] == Headers.Encoding(p.header) + [];
      Headers.EncodeThenDecode(p.header, []);
    }
  }
}
