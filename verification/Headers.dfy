/** The 12-byte packet header of section 4.1 of RFC 8907. */
module Headers {
  import opened Primitives
  import opened Enumerations

  const HEADER_LENGTH: nat := 12

  datatype Header = Header(
    majorVersion: MajorVersion,
    minorVersion: MinorVersion,
    packetType: PacketType,
    seqNo: byte,
    flags: HeaderFlags,
    sessionId: u32,
    length: u32)
  {
    /** Both version nibbles in one byte. */
    function Version(): byte {
      majorVersion.Code() * 0x10 + minorVersion.Code()
    }

    function WithUnencrypted(on: bool): Header {
      this.(flags := flags.(unencrypted := on))
    }
  }

  datatype HeaderError =
    | DataTooShort | InvalidMajorVersion | InvalidMinorVersion | InvalidType | InvalidFlags

  function FromBytes(data: seq<byte>): Result<Header, HeaderError> {
    if |data| < HEADER_LENGTH then Failure(DataTooShort)
    else
      var major :- MajorVersionFromCode(data[0] / 0x10 % 0x10).OrError(InvalidMajorVersion);
      var minor :- MinorVersionFromCode(data[0] % 0x10).OrError(InvalidMinorVersion);
      var packetType :- PacketTypeFromCode(data[1]).OrError(InvalidType);
      var seqNo := data[2];
      var flags :- HeaderFlagsFromBits(data[3]).OrError(InvalidFlags);
      var sessionId := FromBe32(data[4], data[5], data[6], data[7]);
      var length := FromBe32(data[8], data[9], data[10], data[11]);
      Success(Header(major, minor, packetType, seqNo, flags, sessionId, length))
  }

  function Encoding(h: Header): (s: seq<byte>)
    ensures |s| == HEADER_LENGTH
  {
    [h.Version(), h.packetType.Code(), h.seqNo, h.flags.Bits()] + Be32(h.sessionId) + Be32(h.length)
  }

  /** `to_bytes`, filling a fixed array slot by slot. */
  method ToBytes(h: Header) returns (binary: array<byte>)
    ensures fresh(binary) && binary.Length == HEADER_LENGTH
    ensures binary[..] == Encoding(h)
  {
    binary := new byte[HEADER_LENGTH](_ => 0);
    binary[0] := h.Version();
    binary[1] := h.packetType.Code();
    binary[2] := h.seqNo;
    binary[3] := h.flags.Bits();
    CopyFromSlice(binary, 4, Be32(h.sessionId));
    CopyFromSlice(binary, 8, Be32(h.length));
  }

  /** `target[at..at + |source|].copy_from_slice(source)`. */
  method CopyFromSlice(target: array<byte>, at: nat, source: seq<byte>)
    requires at + |source| <= target.Length
    modifies target
    ensures target[..] == old(target[..at]) + source + old(target[at + |source|..])
  {
    for i := 0 to |source|
      invariant target[..] == old(target[..at]) + source[..i] + old(target[at + i..])
    {
      target[at + i] := source[i];
    }
  }

  /** Decoding inverts encoding, whatever follows the header. */
  lemma EncodeThenDecode(h: Header, rest: seq<byte>)
    ensures FromBytes(Encoding(h) + rest) == Success(h)
  {
    var data := Encoding(h) + rest;
    assert h.Version() / 0x10 % 0x10 == h.majorVersion.Code();
    assert h.Version() % 0x10 == h.minorVersion.Code();
    assert data[4..8] == Be32(h.sessionId) && data[8..12] == Be32(h.length);
    Be32RoundTrip(h.sessionId);
    Be32RoundTrip(h.length);
  }

  /** Encoding an accepted header reproduces the 12 bytes it was read from. */
  lemma DecodeThenEncode(data: seq<byte>)
    requires FromBytes(data).Success?
    ensures Encoding(FromBytes(data).value) == data[..HEADER_LENGTH]
  {
    var h := FromBytes(data).value;
    FromBe32RoundTrip(data[4], data[5], data[6], data[7]);
    FromBe32RoundTrip(data[8], data[9], data[10], data[11]);
    assert h.Version() == data[0];
    assert data[..HEADER_LENGTH]
        == [data[0], data[1], data[2], data[3]]
         + [data[4], data[5], data[6], data[7]] + [data[8], data[9], data[10], data[11]];
  }

  /** The wire form of a header, byte by byte. */
  predicate WireForm(s: seq<byte>, h: Header)
    requires |s| >= 12
  {
    && s[0] == (if h.minorVersion.MinorOne? then 0xc1 else 0xc0)
    && s[1] == (match h.packetType case Authentication => 0x01 case Authorisation => 0x02 case Accounting => 0x03)
    && s[2] == h.seqNo
    && s[3] == (match (h.flags.unencrypted, h.flags.singleConnect)
                case (false, false) => 0x00
                case (true, false) => 0x01
                case (false, true) => 0x04
                case (true, true) => 0x05)
    && s[4] as int * 0x100_0000 + s[5] as int * 0x1_0000 + s[6] as int * 0x100 + s[7] == h.sessionId
    && s[8] as int * 0x100_0000 + s[9] as int * 0x1_0000 + s[10] as int * 0x100 + s[11] == h.length
  }

  /** Encoding produces the wire form of a header, and decoding reads off a
      string the one header that it is the wire form of. */
  lemma HeadersOnTheWire(data: seq<byte>, h: Header)
    ensures |Encoding(h)| == 12 && WireForm(Encoding(h), h)
    ensures FromBytes(data) == Success(h) <==> |data| >= 12 && WireForm(data, h)
  {
    Encoded(h);
    if FromBytes(data) == Success(h) {
      DecodeThenEncode(data);
      assert forall i :: 0 <= i < 12 ==> data[i] == data[..12][i];
    }
    if |data| >= 12 && WireForm(data, h) {
      SameNumber(data[4..8], Encoding(h)[4..8]);
      SameNumber(data[8..12], Encoding(h)[8..12]);
      assert data[..12] == data[..4] + data[4..8] + data[8..12];
      assert Encoding(h) == Encoding(h)[..4] + Encoding(h)[4..8] + Encoding(h)[8..12];
      assert data[..4] == Encoding(h)[..4];
      assert data == Encoding(h) + data[12..];
      EncodeThenDecode(h, data[12..]);
    }
  }

  lemma Encoded(h: Header)
    ensures |Encoding(h)| == 12 && WireForm(Encoding(h), h)
  {
    assert Encoding(h)[4..8] == Be32(h.sessionId) && Encoding(h)[8..12] == Be32(h.length);
    Be32RoundTrip(h.sessionId);
    Be32RoundTrip(h.length);
  }

  /** A number of four bytes has only one big-endian form. */
  lemma SameNumber(s: seq<byte>, t: seq<byte>)
    requires |s| == 4 && |t| == 4
    requires s[0] as int * 0x100_0000 + s[1] as int * 0x1_0000 + s[2] as int * 0x100 + s[3]
          == t[0] as int * 0x100_0000 + t[1] as int * 0x1_0000 + t[2] as int * 0x100 + t[3]
    ensures s == t
  {
    var s2, t2 := s[0] as int * 0x100 + s[1], t[0] as int * 0x100 + t[1];
    SameDigits(s2 * 0x100 + s[2], s[3], t2 * 0x100 + t[2], t[3]);
    SameDigits(s2, s[2], t2, t[2]);
    SameDigits(s[0], s[1], t[0], t[1]);
  }

  lemma SameDigits(x: int, a: byte, y: int, b: byte)
    requires x * 0x100 + a == y * 0x100 + b
    ensures x == y && a == b
  {
  }

  /** Why a header is rejected: the first of these that applies. */
  lemma Rejection(data: seq<byte>)
    ensures FromBytes(data) == Failure(DataTooShort) <==> |data| < 12
    ensures FromBytes(data) == Failure(InvalidMajorVersion) <==> |data| >= 12 && data[0] / 0x10 != 0xc
    ensures FromBytes(data) == Failure(InvalidMinorVersion) <==>
              |data| >= 12 && data[0] / 0x10 == 0xc && data[0] !in {0xc0, 0xc1}
    ensures FromBytes(data) == Failure(InvalidType) <==>
              |data| >= 12 && data[0] in {0xc0, 0xc1} && data[1] !in {0x01, 0x02, 0x03}
    ensures FromBytes(data) == Failure(InvalidFlags) <==>
              && |data| >= 12 && data[0] in {0xc0, 0xc1} && data[1] in {0x01, 0x02, 0x03}
              && data[3] !in {0x00, 0x01, 0x04, 0x05}
  {
    if |data| >= 12 {
      assert Major1.Code() == 0xc;
      assert MajorVersionFromCode(data[0] / 0x10 % 0x10).Some? <==> data[0] / 0x10 == 0xc;
      assert MinorVersionFromCode(data[0] % 0x10).Some? <==> data[0] % 0x10 in {0, 1};
      assert PacketTypeFromCode(data[1]).Some? <==> data[1] in {1, 2, 3};
      assert HeaderFlagsFromBits(data[3]).Some? <==> data[3] in {0, 1, 4, 5};
    }
  }

  /** Exactly the 24 combinations of the first, second and fourth byte that
      are accepted; the sequence number, the session id and the length are
      never a reason to reject. */
  lemma Acceptance(data: seq<byte>)
    ensures FromBytes(data).Success?
       <==> && |data| >= HEADER_LENGTH
            && data[0] in {0xc0, 0xc1}
            && data[1] in {0x01, 0x02, 0x03}
            && data[3] in {0x00, 0x01, 0x04, 0x05}
  {
    if |data| >= HEADER_LENGTH {
      assert Major1.Code() == 0xc;
      assert MinorVersionFromCode(data[0] % 0x10).Some? <==> data[0] % 0x10 in {0, 1};
      assert PacketTypeFromCode(data[1]).Some? <==> data[1] in {1, 2, 3};
      assert HeaderFlagsFromBits(data[3]).Some? <==> data[3] in {0, 1, 4, 5};
    }
  }
}
