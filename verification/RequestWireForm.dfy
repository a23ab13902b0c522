/** The accounting request body written out byte by byte, and the reasons for
    which a body is rejected. */
module RequestWireForm {
  import opened Primitives
  import opened Enumerations
  import opened Cursors
  import Packets
  import opened AccountingRequests

  /** The bytes of a request written out; a length field holds the low byte of
      its length.  `at` says where each argument starts and the last one ends. */
  predicate OnTheWire(data: seq<byte>, r: AccountingRequest, at: seq<nat>) {
    |data| >= 9 && FixedOnTheWire(data, r) && StringsOnTheWire(data, r) && ArgsOnTheWire(data, r, at)
  }

  predicate StringsOnTheWire(data: seq<byte>, r: AccountingRequest) {
    var from := 9 + |r.args|;
    var port := from + |r.user|;
    var address := port + |r.port|;
    var end := address + |r.remAddress|;
    && |data| >= end
    && (forall i :: 9 <= i < from ==> data[i] == |r.args[i - 9]| % 0x100)
    && data[from..port] == r.user && data[port..address] == r.port && data[address..end] == r.remAddress
  }

  predicate ArgsOnTheWire(data: seq<byte>, r: AccountingRequest, at: seq<nat>) {
    && |at| == |r.args| + 1 && at[0] == 9 + |r.args| + |r.user| + |r.port| + |r.remAddress|
    && forall i :: 0 <= i < |r.args| ==> ArgOnTheWire(data, r.args[i], at[i], at[i + 1])
  }

  predicate ArgOnTheWire(data: seq<byte>, arg: Text, from: nat, to: nat) {
    from + |arg| == to <= |data| && data[from..to] == arg
  }

  predicate FixedOnTheWire(data: seq<byte>, r: AccountingRequest)
    requires |data| >= 9
  {
    && data[0] == (if r.flags.start then 0x02 else 0) + (if r.flags.stop then 0x04 else 0)
                  + (if r.flags.watchdog then 0x08 else 0)
    && data[1] == (match r.authenMethod
                   case MethodNotSet => 0x00 case MethodNone => 0x01 case MethodKrb5 => 0x02
                   case MethodLine => 0x03 case MethodEnable => 0x04 case MethodLocal => 0x05
                   case MethodTacacsPlus => 0x06 case MethodGuest => 0x08 case MethodRadius => 0x10
                   case MethodKrb4 => 0x11 case MethodRcmd => 0x20)
    && data[2] == r.privLvl
    && data[3] == (match r.authenType
                   case TypeNotSet => 0x00 case TypeAscii => 0x01 case TypePap => 0x02
                   case TypeChap => 0x03 case TypeMschap => 0x05 case TypeMschapV2 => 0x06)
    && data[4] == (match r.authenService
                   case ServiceNone => 0x00 case ServiceLogin => 0x01 case ServiceEnable => 0x02
                   case ServicePpp => 0x03 case ServicePt => 0x05 case ServiceRcmd => 0x06
                   case ServiceX25 => 0x07 case ServiceNasi => 0x08 case ServiceFwproxy => 0x09)
    && data[5] == |r.user| % 0x100 && data[6] == |r.port| % 0x100
    && data[7] == |r.remAddress| % 0x100 && data[8] == |r.args| % 0x100
  }

  /** Encoding writes exactly those bytes, and decoding reads off a body the one
      request that it holds, if it holds one whose lengths fit. */
  lemma RequestsOnTheWire(data: seq<byte>, r: AccountingRequest)
    ensures exists at :: OnTheWire(Encoding(r), r, at) && at[|r.args|] == |Encoding(r)|
    ensures Decoding(data) == Success(r) <==> r.WithinBounds() && exists at :: OnTheWire(data, r, at)
  {
    hide Encoding, Decoding, Utf8Valid, OnTheWire;
    var at := EncodedForm(r, []);
    assert Encoding(r) + [] == Encoding(r);
    if Decoding(data) == Success(r) {
      DecodeThenEncode(data);
      var rest := data[|Encoding(r)|..];
      assert data == Encoding(r) + rest;
      var _ := EncodedForm(r, rest);
    }
    if at :| r.WithinBounds() && OnTheWire(data, r, at) {
      WireIsEncoding(data, r, at);
      var rest := data[|Encoding(r)|..];
      assert data == Encoding(r) + rest;
      EncodeThenDecode(r, rest);
    }
  }

  /** Where the arguments lie in an encoding. */
  function Places(args: seq<Text>, from: nat): (at: seq<nat>)
    ensures |at| == |args| + 1
  {
    seq(|args| + 1, i requires 0 <= i <= |args| => from + |Joined(args[..i])|)
  }

  lemma EncodedForm(r: AccountingRequest, rest: seq<byte>) returns (at: seq<nat>)
    ensures OnTheWire(Encoding(r) + rest, r, at) && at[|r.args|] == |Encoding(r)|
  {
    hide Utf8Valid, FixedOnTheWire, ArgOnTheWire, StringsOnTheWire, Joined, Fixed;
    var data := Encoding(r) + rest;
    var head := 9 + |r.args| + |r.user| + |r.port| + |r.remAddress|;
    at := Places(r.args, head);
    SixParts(Fixed(r), Sizes(r.args), r.user, r.port, r.remAddress, Joined(r.args), rest);
    assert r.args[..|r.args|] == r.args;
    assert Joined(r.args[..0]) == [] by {
      NothingJoined(r.args);
    }
    FixedIsWritten(data, r);
    StringsAreWritten(data, r);
    forall i | 0 <= i < |r.args|
      ensures ArgOnTheWire(data, r.args[i], at[i], at[i + 1])
    {
      ArgIsWritten(data, r.args, head, i);
    }
  }

  lemma NothingJoined(args: seq<Text>)
    ensures Joined(args[..0]) == []
  {
  }

  lemma FixedIsWritten(data: seq<byte>, r: AccountingRequest)
    requires |data| >= 9 && data[..9] == Fixed(r)
    ensures FixedOnTheWire(data, r)
  {
    assert forall i :: 0 <= i < 9 ==> data[i] == Fixed(r)[i];
  }

  lemma StringsAreWritten(data: seq<byte>, r: AccountingRequest)
    requires var from := 9 + |r.args|;
             var port := from + |r.user|;
             var address := port + |r.port|;
             var end := address + |r.remAddress|;
             && |data| >= end && data[9..from] == Sizes(r.args)
             && data[from..port] == r.user && data[port..address] == r.port && data[address..end] == r.remAddress
    ensures StringsOnTheWire(data, r)
  {
    hide Utf8Valid;
    forall i | 9 <= i < 9 + |r.args|
      ensures data[i] == |r.args[i - 9]| % 0x100
    {
      assert data[9..9 + |r.args|][i - 9] == Sizes(r.args)[i - 9];
    }
  }

  lemma ArgIsWritten(data: seq<byte>, args: seq<Text>, head: nat, i: nat)
    requires i < |args| && head + |Joined(args)| <= |data|
    requires data[head..head + |Joined(args)|] == Joined(args)
    ensures ArgOnTheWire(data, args[i], head + |Joined(args[..i])|, head + |Joined(args[..i + 1])|)
  {
    hide Joined, Utf8Valid;
    var lo := |Joined(args[..i])|;
    JoinedSplit(args, i);
    SliceOfSlice(data, head, head + |Joined(args)|, lo, lo + |args[i]|);
    JoinedOneMore(args, i);
  }

  lemma JoinedOneMore(args: seq<Text>, i: nat)
    requires i < |args|
    ensures Joined(args[..i + 1]) == Joined(args[..i]) + args[i]
  {
    assert args[..i + 1][..i] == args[..i];
  }

  lemma WireIsEncoding(data: seq<byte>, r: AccountingRequest, at: seq<nat>)
    requires OnTheWire(data, r, at)
    ensures Encoding(r) <= data
  {
    hide Utf8Valid, FixedOnTheWire, StringsOnTheWire, ArgsOnTheWire, Joined, Fixed;
    FixedIsUnique(data, r);
    StringsAreUnique(data, r);
    ArgsAreUnique(data, r, at, |r.args|);
    assert r.args[..|r.args|] == r.args;
    var from := 9 + |r.args|;
    var port := from + |r.user|;
    var address := port + |r.port|;
    SixSlices(data, 9, from, port, address, at[0], at[|r.args|]);
  }

  lemma FixedIsUnique(data: seq<byte>, r: AccountingRequest)
    requires |data| >= 9 && FixedOnTheWire(data, r)
    ensures data[..9] == Fixed(r)
  {
  }

  lemma StringsAreUnique(data: seq<byte>, r: AccountingRequest)
    requires StringsOnTheWire(data, r)
    ensures var from := 9 + |r.args|;
            var port := from + |r.user|;
            var address := port + |r.port|;
            var end := address + |r.remAddress|;
            && |data| >= end && data[9..from] == Sizes(r.args)
            && data[from..port] == r.user && data[port..address] == r.port && data[address..end] == r.remAddress
  {
    hide Utf8Valid;
  }

  lemma {:induction false} ArgsAreUnique(data: seq<byte>, r: AccountingRequest, at: seq<nat>, n: nat)
    requires |data| >= 9 + |r.args| + |r.user| + |r.port| + |r.remAddress|
    requires ArgsOnTheWire(data, r, at) && n <= |r.args|
    ensures |at| == |r.args| + 1 && at[0] == 9 + |r.args| + |r.user| + |r.port| + |r.remAddress|
    ensures at[0] <= at[n] <= |data| && data[at[0]..at[n]] == Joined(r.args[..n])
  {
    hide Utf8Valid, Joined;
    if n == 0 {
      NothingJoined(r.args);
    } else {
      ArgsAreUnique(data, r, at, n - 1);
      assert ArgOnTheWire(data, r.args[n - 1], at[n - 1], at[n]);
      JoinedOneMore(r.args, n - 1);
      Adjacent(data, at[0], at[n - 1], at[n]);
    }
  }

  // ---------- Why a body is rejected ----------

  predicate FlagsLegal(b: byte) {
    b % 2 == 0 && b < 0x10
  }

  predicate MethodLegal(b: byte) {
    b <= 0x06 || b == 0x08 || b == 0x10 || b == 0x11 || b == 0x20
  }

  predicate TypeLegal(b: byte) {
    b <= 0x06 && b != 0x04
  }

  predicate ServiceLegal(b: byte) {
    b <= 0x09 && b != 0x04
  }

  predicate LeadLegal(data: seq<byte>) {
    |data| >= 9 && FlagsLegal(data[0]) && MethodLegal(data[1]) && TypeLegal(data[3]) && ServiceLegal(data[4])
  }

  lemma LegalCodes(b: byte)
    ensures AccountingFlagsFromBits(b).Some? <==> FlagsLegal(b)
    ensures AuthenMethodFromCode(b).Some? <==> MethodLegal(b)
    ensures AuthenTypeFromCode(b).Some? <==> TypeLegal(b)
    ensures AuthenServiceFromCode(b).Some? <==> ServiceLegal(b)
  {
  }

  /** The errors of the fixed bytes, in the order in which they are found. */
  lemma FixedRejection(data: seq<byte>)
    ensures Decoding(data) == Failure(DataTooShort) <==> |data| < 9
    ensures Decoding(data) == Failure(InvalidFlags) <==> |data| >= 9 && !FlagsLegal(data[0])
    ensures Decoding(data) == Failure(InvalidAuthenMethod) <==>
              |data| >= 9 && FlagsLegal(data[0]) && !MethodLegal(data[1])
    ensures Decoding(data) == Failure(InvalidAuthenType) <==>
              |data| >= 9 && FlagsLegal(data[0]) && MethodLegal(data[1]) && !TypeLegal(data[3])
    ensures Decoding(data) == Failure(InvalidAuthenService) <==>
              && |data| >= 9 && FlagsLegal(data[0]) && MethodLegal(data[1]) && TypeLegal(data[3])
              && !ServiceLegal(data[4])
    ensures Decoding(data) == Failure(InvalidArgSize) <==> LeadLegal(data) && |data| < 9 + data[8] as int
  {
    hide Field, Args, FlagsLegal, MethodLegal, TypeLegal, ServiceLegal;
    hide AccountingFlagsFromBits, AuthenMethodFromCode, AuthenTypeFromCode, AuthenServiceFromCode;
    if |data| >= 9 {
      LegalCodes(data[0]);
      LegalCodes(data[1]);
      LegalCodes(data[3]);
      LegalCodes(data[4]);
      if HasSizes(data) {
        ArgsFail(data, data[8]);
      }
    }
  }

  lemma {:induction false} ArgsFail(data: seq<byte>, n: nat)
    requires HasSizes(data) && n <= data[8]
    ensures Args(data, n).Failure? ==> Args(data, n).error == InvalidArg
  {
    hide Field;
    if n > 0 {
      ArgsFail(data, n - 1);
    }
  }

  predicate TextFits(data: seq<byte>, from: nat, len: nat) {
    from + len <= |data| && Utf8Valid(data[from..from + len])
  }

  /** The errors of the strings: each is reported when it is the first one that
      does not lie inside the data or is not UTF-8. */
  lemma StringRejection(data: seq<byte>)
    requires LeadLegal(data) && |data| >= 9 + data[8] as int
    ensures var at, u, p := 9 + data[8] as int, data[5] as int, data[6] as int;
            var user, port := TextFits(data, at, data[5]), TextFits(data, at + u, data[6]);
            var address := TextFits(data, at + u + p, data[7]);
            && (Decoding(data) == Failure(InvalidUser) <==> !user)
            && (Decoding(data) == Failure(InvalidPort) <==> user && !port)
            && (Decoding(data) == Failure(InvalidRemAddress) <==> user && port && !address)
            && (Decoding(data) == Failure(InvalidArg) <==> user && port && address && Decoding(data).Failure?)
  {
    hide Utf8Valid, Args, FlagsLegal, MethodLegal, TypeLegal, ServiceLegal;
    hide AccountingFlagsFromBits, AuthenMethodFromCode, AuthenTypeFromCode, AuthenServiceFromCode;
    LegalCodes(data[0]);
    LegalCodes(data[1]);
    LegalCodes(data[3]);
    LegalCodes(data[4]);
    ArgsFail(data, data[8]);
  }

  /** `from_packet` looks at the size first: a body that is shorter than it
      announces is a mismatch whatever else is wrong with it. */
  lemma PacketRejection(p: Packets.Packet)
    requires |p.body| >= 9 && |p.body| >= 9 + p.body[8] as int
    ensures PacketDecoding(p) == Returned(Failure(LengthMismatch)) <==> |p.body| < SizeFromBytes(p.body)
    ensures |p.body| >= SizeFromBytes(p.body) && Decoding(p.body).Failure? ==>
              PacketDecoding(p) == Returned(Failure(Undecodable(Decoding(p.body).error)))
  {
  }
}
