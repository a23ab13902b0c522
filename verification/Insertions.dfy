/** Foreign bytes in the stream: which of them a session can notice, and what a
    rejected header does to the bytes behind it. */
module Insertions {
  import opened Primitives
  import opened Enumerations
  import opened Packets
  import opened Framing
  import Headers

  /** Put in where the read loop begins a frame, these bytes never change what
      the session receives, whatever the stream goes on with. */
  ghost predicate Harmless(k: Secret, bytes: seq<byte>, id: u32) {
    forall rest: seq<byte> :: OfSession(Decode(k, bytes + rest), id) == OfSession(Decode(k, rest), id)
  }

  // ---------- Bytes that cannot begin a header ----------

  predicate Low(s: seq<byte>) {
    forall i :: 0 <= i < |s| ==> s[i] <= 1
  }

  lemma LowIsRejected(s: seq<byte>)
    requires |s| >= HEADER_LENGTH && s[0] <= 1
    ensures NextFrame(s) == Rejected(s[HEADER_LENGTH..])
  {
    Headers.Acceptance(s[..HEADER_LENGTH]);
  }

  /** They are skipped; and unless they fill whole headers, a short tail is
      skipped or starved on with them. */
  lemma {:induction false} LowDecodesToNothing(k: Secret, low: seq<byte>, tail: seq<byte>)
    requires Low(low) && (tail == [] || (|low| % HEADER_LENGTH != 0 && |tail| <= HEADER_LENGTH))
    ensures Decode(k, low + tail) == []
    decreases |low|
  {
    hide NextFrame, Open;
    var s := low + tail;
    DecodeStep(k, s);
    if |s| < HEADER_LENGTH {
      ShortStarves(s);
    } else {
      LowIsRejected(s);
      if |low| >= HEADER_LENGTH {
        assert s[HEADER_LENGTH..] == low[HEADER_LENGTH..] + tail;
        LowDecodesToNothing(k, low[HEADER_LENGTH..], tail);
      } else {
        ShortStarves(s[HEADER_LENGTH..]);
        DecodeStep(k, s[HEADER_LENGTH..]);
      }
    }
  }

  lemma ShortStarves(s: seq<byte>)
    requires |s| < HEADER_LENGTH
    ensures NextFrame(s) == Starved
  {
  }

  // ---------- What a starved front does to the bytes behind it ----------

  /** A packet of the session with an empty body. */
  function Marker(id: u32): (p: Packet)
    ensures p.Sized()
  {
    Packet(Headers.Header(Major1, MinorDefault, Accounting, 0, HeaderFlags(true, false), id, 0), [])
  }

  function MarkerFrame(id: u32): (e: seq<byte>)
    ensures |e| == HEADER_LENGTH
  {
    Packets.Encoding(Marker(id))
  }

  lemma OfSessionOne(p: Packet, id: u32)
    ensures OfSession([p], id) == if p.header.sessionId == id then [p] else []
  {
    assert [p][..0] == [];
  }

  /** Bytes that complete a front without filling whole headers themselves: a
      marker behind them arrives only with the front before them. */
  lemma CompletedFrontDisturbs(k: Secret, front: seq<byte>, low: seq<byte>, id: u32)
    requires Leftover(front + low) == [] && Low(low) && |low| % HEADER_LENGTH != 0
    ensures var rest := low + MarkerFrame(id);
            OfSession(Decode(k, front + rest), id) != OfSession(Decode(k, rest), id)
  {
    hide NextFrame, Open, Packets.Encoding;
    var e := MarkerFrame(id);
    LowDecodesToNothing(k, low, e);
    assert front + (low + e) == (front + low) + e;
    DecodeInTwoPieces(k, front + low, e);
    assert [] + e == e;
    OneFrame(k, Marker(id));
    OfSessionConcat(Decode(k, front + low), [Open(k, Marker(id))], id);
    OfSessionOne(Open(k, Marker(id)), id);
  }

  /** The front is a header with a body that ends early, and `more` is as long
      as what is missing. */
  lemma CompletedFrame(k: Secret, front: seq<byte>, more: seq<byte>, h: Headers.Header)
    requires |front| >= HEADER_LENGTH && Headers.FromBytes(front[..HEADER_LENGTH]) == Success(h)
    requires |front + more| == HEADER_LENGTH + h.length
    ensures Leftover(front + more) == []
    ensures |Decode(k, front + more)| == 1 && Decode(k, front + more)[0].header.sessionId == h.sessionId
  {
    hide Open;
    assert (front + more)[..HEADER_LENGTH] == front[..HEADER_LENGTH];
    assert (front + more)[|front + more|..] == [];
    ShortStarves([]);
  }

  function Zeros(n: nat): (s: seq<byte>)
    ensures |s| == n && Low(s)
  {
    seq(n, _ => 0)
  }

  /** A missing part that fills whole headers: either the completed frame is
      the session's own, or it swallows a marker. */
  lemma AlignedFrontDisturbs(k: Secret, front: seq<byte>, h: Headers.Header, id: u32) returns (rest: seq<byte>)
    requires |front| >= HEADER_LENGTH && Headers.FromBytes(front[..HEADER_LENGTH]) == Success(h)
    requires |front| + HEADER_LENGTH <= HEADER_LENGTH + h.length
    ensures OfSession(Decode(k, front + rest), id) != OfSession(Decode(k, rest), id)
  {
    hide NextFrame, Open, Packets.Encoding;
    var missing := HEADER_LENGTH + h.length - |front|;
    if h.sessionId == id {
      rest := Zeros(missing);
      CompletedFrame(k, front, rest, h);
      OfSessionOne(Decode(k, front + rest)[0], id);
      LowDecodesToNothing(k, rest, []);
      assert rest + [] == rest;
    } else {
      var e, zeros := MarkerFrame(id), Zeros(missing - HEADER_LENGTH);
      rest := e + zeros;
      CompletedFrame(k, front, rest, h);
      OfSessionOne(Decode(k, front + rest)[0], id);
      OneFrame(k, Marker(id));
      DecodeInTwoPieces(k, e, zeros);
      assert [] + zeros == zeros == zeros + [];
      LowDecodesToNothing(k, zeros, []);
      OfSessionOne(Open(k, Marker(id)), id);
    }
  }

  /** A front of less than a header can be completed, rejected or accepted, by
      bytes that do not fill whole headers themselves. */
  lemma ShortFrontIsCompleted(k: Secret, front: seq<byte>) returns (low: seq<byte>)
    requires 0 < |front| < HEADER_LENGTH
    ensures Leftover(front + low) == [] && Low(low) && |low| % HEADER_LENGTH != 0
  {
    hide Open, Decode, NextFrame, Leftover, Headers.FromBytes;
    var missing := HEADER_LENGTH - |front|;
    var header := front + Zeros(missing);
    if Headers.FromBytes(header).Failure? {
      low := Zeros(missing);
      RejectedFrameEnds(header);
    } else {
      var h := Headers.FromBytes(header).value;
      if (missing + h.length) % HEADER_LENGTH != 0 {
        low := Zeros(missing) + Zeros(h.length);
        assert front + low == header + Zeros(h.length);
        assert header[..HEADER_LENGTH] == header;
        CompletedFrame(k, header, Zeros(h.length), h);
      } else {
        var one := LastByteCounts(header);
        low := Zeros(missing - 1) + [1] + Zeros(h.length + 1);
        assert one == front + (Zeros(missing - 1) + [1]);
        assert front + low == one + Zeros(h.length + 1);
        assert one[..HEADER_LENGTH] == one;
        CompletedFrame(k, one, Zeros(h.length + 1), h.(length := h.length + 1));
        NotAligned(missing + h.length);
      }
    }
  }

  lemma NotAligned(n: nat)
    requires n % HEADER_LENGTH == 0
    ensures (n + 1) % HEADER_LENGTH != 0
  {
  }

  lemma RejectedFrameEnds(header: seq<byte>)
    requires |header| == HEADER_LENGTH && Headers.FromBytes(header).Failure?
    ensures Leftover(header) == []
  {
    assert header[..HEADER_LENGTH] == header;
    assert NextFrame(header) == Rejected([]);
    ShortStarves([]);
  }

  /** The last byte of a header is the low end of the length. */
  lemma LastByteCounts(header: seq<byte>) returns (one: seq<byte>)
    requires |header| == HEADER_LENGTH && Headers.FromBytes(header).Success? && header[HEADER_LENGTH - 1] == 0
    ensures one == header[..HEADER_LENGTH - 1] + [1]
    ensures Headers.FromBytes(header).value.length + 1 < 0x1_0000_0000
    ensures var h := Headers.FromBytes(header).value;
            Headers.FromBytes(one) == Success(h.(length := h.length + 1))
  {
    one := header[..HEADER_LENGTH - 1] + [1];
  }

  /** Whatever the read loop starves on, something may follow that makes the
      session notice it. */
  lemma StarvedFrontDisturbs(k: Secret, front: seq<byte>, id: u32) returns (rest: seq<byte>)
    requires front != [] && NextFrame(front).Starved?
    ensures OfSession(Decode(k, front + rest), id) != OfSession(Decode(k, rest), id)
  {
    hide Open, Decode, OfSession, MarkerFrame;
    var e := MarkerFrame(id);
    if |front| < HEADER_LENGTH {
      var low := ShortFrontIsCompleted(k, front);
      CompletedFrontDisturbs(k, front, low, id);
      rest := low + e;
    } else {
      var h := Headers.FromBytes(front[..HEADER_LENGTH]).value;
      var missing := HEADER_LENGTH + h.length - |front|;
      if missing % HEADER_LENGTH != 0 {
        CompletedFrame(k, front, Zeros(missing), h);
        CompletedFrontDisturbs(k, front, Zeros(missing), id);
        rest := Zeros(missing) + e;
      } else {
        rest := AlignedFrontDisturbs(k, front, h, id);
      }
    }
  }

  lemma {:induction false} LeftoverStarves(stream: seq<byte>)
    ensures NextFrame(Leftover(stream)).Starved?
    decreases |stream|
  {
    match NextFrame(stream)
    case Starved =>
    case Rejected(rest) => LeftoverStarves(rest);
    case Framed(_, rest) => LeftoverStarves(rest);
  }

  // ---------- Which bytes are harmless ----------

  /** What holds on every stream holds behind every boundary of one. */
  lemma HarmlessAnywhere(k: Secret, stream: seq<byte>, n: nat, bytes: seq<byte>, id: u32)
    requires Boundary(stream, n) && Harmless(k, bytes, id)
    ensures OfSession(Decode(k, stream[..n] + bytes + stream[n..]), id) == OfSession(Decode(k, stream), id)
  {
    hide Decode, Leftover, OfSession;
    var a, b := stream[..n], stream[n..];
    assert stream == a + b && a + bytes + b == a + (bytes + b);
    assert [] + b == b && [] + (bytes + b) == bytes + b;
    DecodeInTwoPieces(k, a, b);
    DecodeInTwoPieces(k, a, bytes + b);
    OfSessionConcat(Decode(k, a), Decode(k, b), id);
    OfSessionConcat(Decode(k, a), Decode(k, bytes + b), id);
  }

  /** A session cannot notice bytes put in at a boundary if and only if they
      end at a boundary themselves and hold no packet of that session. */
  lemma HarmlessBytes(k: Secret, bytes: seq<byte>, id: u32)
    ensures Harmless(k, bytes, id) <==> Leftover(bytes) == [] && OfSession(Decode(k, bytes), id) == []
  {
    hide Decode, Leftover, NextFrame, OfSession;
    forall rest: seq<byte>
      ensures OfSession(Decode(k, bytes + rest), id)
           == OfSession(Decode(k, bytes), id) + OfSession(Decode(k, Leftover(bytes) + rest), id)
    {
      DecodeInTwoPieces(k, bytes, rest);
      OfSessionConcat(Decode(k, bytes), Decode(k, Leftover(bytes) + rest), id);
    }
    if Leftover(bytes) == [] && OfSession(Decode(k, bytes), id) == [] {
      assert forall rest: seq<byte> :: [] + rest == rest;
    } else if OfSession(Decode(k, bytes), id) != [] {
      NothingDecodes(k);
      assert OfSession([], id) == [] by {
        OfSessionOfNothing(id);
      }
      assert bytes + [] == bytes;
      assert !Harmless(k, bytes, id);
    } else {
      LeftoverStarves(bytes);
      var rest := StarvedFrontDisturbs(k, Leftover(bytes), id);
      assert OfSession(Decode(k, bytes + rest), id) != OfSession(Decode(k, rest), id);
    }
  }

  lemma OfSessionOfNothing(id: u32)
    ensures OfSession([], id) == []
  {
  }

  // ---------- A rejected header ----------

  /** The loop goes on right behind the rejected header: the body that belongs
      to it is read as if it began a frame. */
  lemma BodyIsReadAsFrames(k: Secret, stream: seq<byte>, n: nat, header: seq<byte>, body: seq<byte>)
    requires Boundary(stream, n) && |header| == HEADER_LENGTH && Headers.FromBytes(header).Failure?
    ensures Leftover(header + body) == Leftover(body)
    ensures Decode(k, header + body) == Decode(k, body)
    ensures Decode(k, stream[..n] + (header + (body + stream[n..])))
         == Decode(k, stream[..n]) + Decode(k, body + stream[n..])
  {
    hide Open;
    var a, b := stream[..n], body + stream[n..];
    HeaderIsSkipped(k, header, body);
    HeaderIsSkipped(k, header, b);
    DecodeInTwoPieces(k, a, header + b);
    assert [] + (header + b) == header + b;
  }

  lemma HeaderIsSkipped(k: Secret, header: seq<byte>, rest: seq<byte>)
    requires |header| == HEADER_LENGTH && Headers.FromBytes(header).Failure?
    ensures Decode(k, header + rest) == Decode(k, rest) && Leftover(header + rest) == Leftover(rest)
  {
    hide Open;
    assert (header + rest)[..HEADER_LENGTH] == header && (header + rest)[HEADER_LENGTH..] == rest;
    assert NextFrame(header + rest) == Rejected(rest);
  }

  /** A frame whose header is rejected leaves a session in peace if and only if
      its body, read as a stream, ends at a boundary and holds no packet of
      that session. */
  lemma RejectedFrameIsHarmless(k: Secret, header: seq<byte>, body: seq<byte>, id: u32)
    requires |header| == HEADER_LENGTH && Headers.FromBytes(header).Failure?
    ensures Harmless(k, header + body, id) <==> Leftover(body) == [] && OfSession(Decode(k, body), id) == []
  {
    hide Decode, Leftover, OfSession, Harmless;
    HeaderIsSkipped(k, header, body);
    HarmlessBytes(k, header + body, id);
  }

  /** A body that is itself a frame is delivered as a packet. */
  lemma FrameInRejectedBody(k: Secret, stream: seq<byte>, n: nat, header: seq<byte>, p: Packet)
    requires Boundary(stream, n) && |header| == HEADER_LENGTH && Headers.FromBytes(header).Failure?
    requires p.Sized()
    ensures Decode(k, stream[..n] + (header + (Packets.Encoding(p) + stream[n..])))
         == Decode(k, stream[..n]) + [Open(k, p)] + Decode(k, stream[n..])
  {
    hide Decode, Leftover, Open;
    BodyIsReadAsFrames(k, stream, n, header, Packets.Encoding(p));
    OneFrame(k, p);
    DecodeInTwoPieces(k, Packets.Encoding(p), stream[n..]);
    assert [] + stream[n..] == stream[n..];
  }
}
