/** The accounting reply body, section 7.2 of RFC 8907. */
module AccountingReplies {
  import opened Primitives
  import opened Enumerations
  import opened Cursors
  import opened Packets

  const MIN_LENGTH: nat := 5
  const MAX_TEXT: nat := 0xffff

  datatype AccountingReply = AccountingReply(status: AccountingStatus, serverMsg: Text, data: Text) {
    /** Both length fields can hold the lengths they stand for. */
    predicate WithinBounds() {
      |serverMsg| <= MAX_TEXT && |data| <= MAX_TEXT
    }
  }

  datatype ReplyError = NoServerMsgLen | NoDataLen | NoStatus | InvalidStatus | BadServerMsg | BadData

  function U16At(data: seq<byte>, i: nat): nat
    requires i + 1 < |data|
  {
    FromBe16(data[i], data[i + 1])
  }

  function Text16(data: seq<byte>, from: nat, len: nat, error: ReplyError): Result<Text, ReplyError> {
    match Field(data, from, len)
    case Success(text) => Success(text)
    case Failure(_) => Failure(error)
  }

  /** What decoding a body means, by offsets into it. */
  function Decoding(bytes: seq<byte>): Result<AccountingReply, ReplyError> {
    if |bytes| < 2 then Failure(NoServerMsgLen)
    else if |bytes| < 4 then Failure(NoDataLen)
    else if |bytes| < 5 then Failure(NoStatus)
    else
      var status :- AccountingStatusFromCode(bytes[4]).OrError(InvalidStatus);
      var serverMsg :- Text16(bytes, 5, U16At(bytes, 0), BadServerMsg);
      var data :- Text16(bytes, 5 + U16At(bytes, 0), U16At(bytes, 2), BadData);
      Success(AccountingReply(status, serverMsg, data))
  }

  /** `AccountingReply::from_bytes`, reading through a cursor. */
  method FromBytes(bytes: seq<byte>) returns (r: Result<AccountingReply, ReplyError>)
    ensures r == Decoding(bytes)
  {
    var cursor := new Cursor(bytes);
    var serverMsgLen := cursor.ReadU16();
    if serverMsgLen.None? {
      return Failure(NoServerMsgLen);
    }
    var dataLen := cursor.ReadU16();
    if dataLen.None? {
      return Failure(NoDataLen);
    }
    var code := cursor.ReadU8();
    if code.None? {
      return Failure(NoStatus);
    }
    var status := AccountingStatusFromCode(code.value);
    if status.None? {
      return Failure(InvalidStatus);
    }
    var serverMsg := cursor.ReadString(serverMsgLen.value);
    if serverMsg.Failure? {
      return Failure(BadServerMsg);
    }
    var data := cursor.ReadString(dataLen.value);
    if data.Failure? {
      return Failure(BadData);
    }
    r := Success(AccountingReply(status.value, serverMsg.value, data.value));
  }

  /** `to_bytes`: the length fields keep the low 16 bits of the lengths. */
  function Encoding(r: AccountingReply): seq<byte> {
    Lengths(r) + r.serverMsg + r.data
  }

  /** `size_from_bytes`: needs only the four length bytes. */
  function SizeFromBytes(bytes: seq<byte>): Result<nat, ReplyError> {
    if |bytes| < 2 then Failure(NoServerMsgLen)
    else if |bytes| < 4 then Failure(NoDataLen)
    else Success(MIN_LENGTH + U16At(bytes, 0) + U16At(bytes, 2))
  }

  datatype PacketError = SizeUnknown | LengthMismatch | Undecodable(error: ReplyError)

  /** `AccountingReply::from_packet`. */
  method FromPacket(p: Packet) returns (r: Result<AccountingReply, PacketError>)
    ensures r == PacketDecoding(p)
  {
    var expected := SizeFromBytes(p.body);
    if expected.Failure? {
      return Failure(SizeUnknown);
    }
    if |p.body| < expected.value {
      return Failure(LengthMismatch);
    }
    var reply := FromBytes(p.body);
    match reply
    case Success(value) => r := Success(value);
    case Failure(error) => r := Failure(Undecodable(error));
  }

  function PacketDecoding(p: Packet): Result<AccountingReply, PacketError> {
    match SizeFromBytes(p.body)
    case Failure(_) => Failure(SizeUnknown)
    case Success(expected) =>
      if |p.body| < expected then Failure(LengthMismatch)
      else
        match Decoding(p.body)
        case Success(reply) => Success(reply)
        case Failure(error) => Failure(Undecodable(error))
  }

  /** The bytes announce and hold the three parts of the reply. */
  predicate LaidOut(bytes: seq<byte>, r: AccountingReply) {
    var m, d := |r.serverMsg|, |r.data|;
    && |bytes| >= MIN_LENGTH + m + d
    && U16At(bytes, 0) == m && U16At(bytes, 2) == d
    && bytes[4] == r.status.Code()
    && bytes[5..5 + m] == r.serverMsg && bytes[5 + m..5 + m + d] == r.data
  }

  lemma FourParts(a: seq<byte>, b: seq<byte>, c: seq<byte>, rest: seq<byte>)
    ensures var s := a + b + c + rest;
            && s[..|a|] == a && s[|a|..|a| + |b|] == b && s[|a| + |b|..|a| + |b| + |c|] == c
  {
  }

  function Lengths(r: AccountingReply): (s: seq<byte>)
    ensures |s| == MIN_LENGTH
  {
    [|r.serverMsg| / 0x100 % 0x100, |r.serverMsg| % 0x100,
     |r.data| / 0x100 % 0x100, |r.data| % 0x100, r.status.Code()]
  }

  lemma LengthsAreReadBack(bytes: seq<byte>, r: AccountingReply)
    requires |bytes| >= MIN_LENGTH && bytes[..MIN_LENGTH] == Lengths(r)
    ensures U16At(bytes, 0) == |r.serverMsg| % 0x1_0000 && U16At(bytes, 2) == |r.data| % 0x1_0000
    ensures bytes[4] == r.status.Code()
  {
    assert forall i :: 0 <= i < MIN_LENGTH ==> bytes[i] == Lengths(r)[i];
    Low16(|r.serverMsg|);
    Low16(|r.data|);
  }

  lemma EncodingIsLaidOut(r: AccountingReply, rest: seq<byte>)
    requires r.WithinBounds()
    ensures LaidOut(Encoding(r) + rest, r)
  {
    hide U16At, Lengths;
    FourParts(Lengths(r), r.serverMsg, r.data, rest);
    LengthsAreReadBack(Encoding(r) + rest, r);
  }

  lemma LaidOutDecodes(bytes: seq<byte>, r: AccountingReply)
    requires LaidOut(bytes, r)
    ensures Decoding(bytes) == Success(r)
  {
    assert AccountingStatusFromCode(bytes[4]) == Some(r.status);
  }

  /** Bytes behind the two strings never matter, and a reply survives the
      round trip exactly when both strings fit their length fields. */
  lemma EncodeThenDecode(r: AccountingReply, rest: seq<byte>)
    ensures Decoding(Encoding(r) + rest) == Success(r) <==> r.WithinBounds()
  {
    if r.WithinBounds() {
      EncodingIsLaidOut(r, rest);
      LaidOutDecodes(Encoding(r) + rest, r);
    } else {
      var bytes := Encoding(r) + rest;
      if Decoding(bytes).Success? {
        DecodeThenEncode(bytes);
      }
    }
  }

  lemma DecodedIsLaidOut(bytes: seq<byte>)
    requires Decoding(bytes).Success?
    ensures LaidOut(bytes, Decoding(bytes).value) && Decoding(bytes).value.WithinBounds()
    ensures |Decoding(bytes).value.serverMsg| == U16At(bytes, 0) && |Decoding(bytes).value.data| == U16At(bytes, 2)
  {
    hide Utf8Valid;
  }

  lemma LaidOutEncodes(bytes: seq<byte>, r: AccountingReply)
    requires LaidOut(bytes, r)
    ensures Encoding(r) == bytes[..MIN_LENGTH + |r.serverMsg| + |r.data|]
  {
    hide Utf8Valid;
    var m, d := |r.serverMsg|, |r.data|;
    High16(bytes[0], bytes[1]);
    High16(bytes[2], bytes[3]);
    assert Lengths(r) == bytes[..5];
    assert bytes[..5 + m + d] == bytes[..5] + bytes[5..5 + m] + bytes[5 + m..5 + m + d];
  }

  /** Encoding an accepted body reproduces the part of it that was read. */
  lemma DecodeThenEncode(bytes: seq<byte>)
    requires Decoding(bytes).Success?
    ensures SizeFromBytes(bytes).Success? && SizeFromBytes(bytes).value <= |bytes|
    ensures Encoding(Decoding(bytes).value) == bytes[..SizeFromBytes(bytes).value]
    ensures Decoding(bytes).value.WithinBounds()
  {
    hide Decoding, Encoding;
    DecodedIsLaidOut(bytes);
    LaidOutEncodes(bytes, Decoding(bytes).value);
  }

  /** A body is accepted exactly when it holds a legal status byte and both
      announced strings, each in valid UTF-8. */
  lemma Acceptance(bytes: seq<byte>)
    ensures Decoding(bytes).Success?
       <==> && |bytes| >= MIN_LENGTH
            && bytes[4] in {0x01, 0x02, 0x21}
            && (var m, d := U16At(bytes, 0), U16At(bytes, 2);
                && |bytes| >= MIN_LENGTH + m + d
                && Utf8Valid(bytes[5..5 + m])
                && Utf8Valid(bytes[5 + m..5 + m + d]))
  {
    if |bytes| >= MIN_LENGTH {
      assert AccountingStatusFromCode(bytes[4]).Some? <==> bytes[4] in {0x01, 0x02, 0x21};
    }
  }

  /** The size check of `from_packet` changes the error but never the verdict. */
  lemma SizeCheckIsRedundant(p: Packet)
    ensures PacketDecoding(p).Success? <==> Decoding(p.body).Success?
    ensures PacketDecoding(p).Success? ==> PacketDecoding(p).value == Decoding(p.body).value
  {
    if Decoding(p.body).Success? {
      DecodeThenEncode(p.body);
    }
  }

  // ---------- Byte by byte ----------

  /** The bytes of a reply written out; a length field holds the low 16 bits of
      its length. */
  predicate OnTheWire(bytes: seq<byte>, r: AccountingReply) {
    var m, d := |r.serverMsg|, |r.data|;
    && |bytes| >= 5 + m + d
    && bytes[0] as int * 0x100 + bytes[1] == m % 0x1_0000
    && bytes[2] as int * 0x100 + bytes[3] == d % 0x1_0000
    && bytes[4] == (match r.status case StatusSuccess => 0x01 case StatusError => 0x02 case StatusFollow => 0x21)
    && bytes[5..5 + m] == r.serverMsg
    && bytes[5 + m..5 + m + d] == r.data
  }

  /** Encoding writes exactly those bytes, and decoding reads off a body the one
      reply that it holds, if it holds one whose lengths fit. */
  lemma RepliesOnTheWire(bytes: seq<byte>, r: AccountingReply)
    ensures |Encoding(r)| == 5 + |r.serverMsg| + |r.data| && OnTheWire(Encoding(r), r)
    ensures Decoding(bytes) == Success(r) <==> r.WithinBounds() && OnTheWire(bytes, r)
  {
    hide Decoding, Encoding, LaidOut, OnTheWire, Utf8Valid;
    EncodedForm(r);
    if Decoding(bytes) == Success(r) {
      DecodedIsLaidOut(bytes);
      LaidOutIsOnTheWire(bytes, r);
    }
    if r.WithinBounds() && OnTheWire(bytes, r) {
      LaidOutIsOnTheWire(bytes, r);
      LaidOutDecodes(bytes, r);
    }
  }

  lemma LaidOutIsOnTheWire(bytes: seq<byte>, r: AccountingReply)
    requires r.WithinBounds()
    ensures LaidOut(bytes, r) <==> OnTheWire(bytes, r)
  {
    hide Utf8Valid;
  }

  lemma EncodedForm(r: AccountingReply)
    ensures |Encoding(r)| == 5 + |r.serverMsg| + |r.data| && OnTheWire(Encoding(r), r)
  {
    hide Utf8Valid;
    FourParts(Lengths(r), r.serverMsg, r.data, []);
    assert Encoding(r) + [] == Encoding(r);
    Low16(|r.serverMsg|);
    Low16(|r.data|);
  }

  predicate TextFits(bytes: seq<byte>, from: nat, len: nat) {
    from + len <= |bytes| && Utf8Valid(bytes[from..from + len])
  }

  /** Why a body is rejected: the first of these that applies. */
  lemma Rejection(bytes: seq<byte>)
    ensures Decoding(bytes) == Failure(NoServerMsgLen) <==> |bytes| < 2
    ensures Decoding(bytes) == Failure(NoDataLen) <==> 2 <= |bytes| < 4
    ensures Decoding(bytes) == Failure(NoStatus) <==> |bytes| == 4
    ensures Decoding(bytes) == Failure(InvalidStatus) <==> |bytes| >= 5 && bytes[4] !in {0x01, 0x02, 0x21}
    ensures |bytes| >= 5 && bytes[4] in {0x01, 0x02, 0x21} ==>
              var m, d := bytes[0] as int * 0x100 + bytes[1], bytes[2] as int * 0x100 + bytes[3];
              && (Decoding(bytes) == Failure(BadServerMsg) <==> !TextFits(bytes, 5, m))
              && (Decoding(bytes) == Failure(BadData) <==> TextFits(bytes, 5, m) && !TextFits(bytes, 5 + m, d))
  {
    hide Utf8Valid;
    if |bytes| >= 5 {
      assert AccountingStatusFromCode(bytes[4]).Some? <==> bytes[4] in {0x01, 0x02, 0x21};
    }
  }

  /** Why a packet is rejected: its size is checked first, and a body that is
      too short is a mismatch whatever else is wrong with it. */
  lemma PacketRejection(p: Packet)
    ensures PacketDecoding(p) == Failure(SizeUnknown) <==> |p.body| < 4
    ensures |p.body| >= 4 ==>
              var total := 5 + p.body[0] as int * 0x100 + p.body[1] + p.body[2] as int * 0x100 + p.body[3];
              && (PacketDecoding(p) == Failure(LengthMismatch) <==> |p.body| < total)
              && (|p.body| >= total && Decoding(p.body).Failure? ==>
                    PacketDecoding(p) == Failure(Undecodable(Decoding(p.body).error)))
  {
  }
}
