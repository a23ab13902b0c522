/** The accounting request body, section 7.1 of RFC 8907: nine fixed bytes,
    one length byte per argument, three strings, then the arguments. */
module AccountingRequests {
  import opened Primitives
  import opened Enumerations
  import opened Cursors
  import opened Packets

  const MIN_LENGTH: nat := 9
  const ARG_SIZE_OFFSET: nat := 9
  const MAX_LEN: nat := 0xff

  datatype AccountingRequest = AccountingRequest(
    flags: AccountingFlags,
    authenMethod: AuthenMethod,
    privLvl: byte,
    authenType: AuthenType,
    authenService: AuthenService,
    user: Text,
    port: Text,
    remAddress: Text,
    args: seq<Text>)
  {
    /** Every one-byte length field can hold the length it stands for. */
    predicate WithinBounds() {
      && |user| <= MAX_LEN && |port| <= MAX_LEN && |remAddress| <= MAX_LEN && |args| <= MAX_LEN
      && forall i :: 0 <= i < |args| ==> |args[i]| <= MAX_LEN
    }
  }

  datatype RequestError =
    | DataTooShort | InvalidFlags | InvalidAuthenMethod | InvalidAuthenType | InvalidAuthenService
    | InvalidArgSize | InvalidUser | InvalidPort | InvalidRemAddress | InvalidArg

  // ---------- Layout ----------

  /** The fixed bytes and all argument length bytes are there. */
  predicate HasSizes(data: seq<byte>) {
    |data| >= MIN_LENGTH && |data| >= ARG_SIZE_OFFSET + data[8]
  }

  /** The total announced length of the first `n` arguments. */
  function ArgBytes(data: seq<byte>, n: nat): nat
    requires |data| >= ARG_SIZE_OFFSET + n
  {
    if n == 0 then 0 else ArgBytes(data, n - 1) + data[ARG_SIZE_OFFSET + n - 1]
  }

  function UserAt(data: seq<byte>): nat
    requires HasSizes(data)
  {
    ARG_SIZE_OFFSET + data[8]
  }

  function PortAt(data: seq<byte>): nat
    requires HasSizes(data)
  {
    UserAt(data) + data[5]
  }

  function RemAddressAt(data: seq<byte>): nat
    requires HasSizes(data)
  {
    PortAt(data) + data[6]
  }

  /** Where argument `n` starts, counting from 0. */
  function ArgAt(data: seq<byte>, n: nat): nat
    requires HasSizes(data) && n <= data[8]
  {
    RemAddressAt(data) + data[7] + ArgBytes(data, n)
  }

  /** What `size_from_bytes` computes: every announced string and the nine
      fixed bytes, but not the argument length bytes. */
  function SizeFromBytes(data: seq<byte>): nat
    requires HasSizes(data)
  {
    MIN_LENGTH + data[5] + data[6] + data[7] + ArgBytes(data, data[8])
  }

  /** `size_from_bytes` indexes the body unchecked: `ok` is false when one of
      the indices is out of range, where the original panics. */
  method ComputeSize(data: seq<byte>) returns (ok: bool, length: nat)
    ensures ok <==> HasSizes(data)
    ensures ok ==> length == SizeFromBytes(data)
  {
    length := MIN_LENGTH;
    if |data| <= 8 {
      return false, length;
    }
    length := length + data[5];
    length := length + data[6];
    length := length + data[7];
    var argCnt := data[8];
    for i := 0 to argCnt
      invariant |data| >= ARG_SIZE_OFFSET + i
      invariant length == MIN_LENGTH + data[5] + data[6] + data[7] + ArgBytes(data, i)
    {
      if ARG_SIZE_OFFSET + i >= |data| {
        return false, length;
      }
      length := length + data[ARG_SIZE_OFFSET + i];
    }
    ok := true;
  }

  // ---------- Decoding ----------

  function TextAt(data: seq<byte>, from: nat, len: nat, error: RequestError): Result<Text, RequestError> {
    match Field(data, from, len)
    case Success(text) => Success(text)
    case Failure(_) => Failure(error)
  }

  /** The first `n` arguments. */
  function Args(data: seq<byte>, n: nat): (r: Result<seq<Text>, RequestError>)
    requires HasSizes(data) && n <= data[8]
    ensures r.Success? ==> |r.value| == n
  {
    if n == 0 then Success([])
    else
      var init :- Args(data, n - 1);
      var last :- TextAt(data, ArgAt(data, n - 1), data[ARG_SIZE_OFFSET + n - 1], InvalidArg);
      Success(init + [last])
  }

  /** The five leading fields, which are checked in the order of the bytes. */
  datatype Lead = Lead(
    flags: AccountingFlags,
    authenMethod: AuthenMethod,
    privLvl: byte,
    authenType: AuthenType,
    authenService: AuthenService)

  function LeadOf(data: seq<byte>): Result<Lead, RequestError>
    requires |data| >= MIN_LENGTH
  {
    var flags :- AccountingFlagsFromBits(data[0]).OrError(InvalidFlags);
    var authenMethod :- AuthenMethodFromCode(data[1]).OrError(InvalidAuthenMethod);
    var authenType :- AuthenTypeFromCode(data[3]).OrError(InvalidAuthenType);
    var authenService :- AuthenServiceFromCode(data[4]).OrError(InvalidAuthenService);
    Success(Lead(flags, authenMethod, data[2], authenType, authenService))
  }

  datatype Strings = Strings(user: Text, port: Text, remAddress: Text, args: seq<Text>)

  function StringsOf(data: seq<byte>): Result<Strings, RequestError>
    requires HasSizes(data)
  {
    var user :- TextAt(data, UserAt(data), data[5], InvalidUser);
    var port :- TextAt(data, PortAt(data), data[6], InvalidPort);
    var remAddress :- TextAt(data, RemAddressAt(data), data[7], InvalidRemAddress);
    var args :- Args(data, data[8]);
    Success(Strings(user, port, remAddress, args))
  }

  function Assemble(lead: Lead, s: Strings): AccountingRequest {
    AccountingRequest(
      lead.flags, lead.authenMethod, lead.privLvl, lead.authenType, lead.authenService,
      s.user, s.port, s.remAddress, s.args)
  }

  /** What decoding a body means, by offsets into it. */
  function Decoding(data: seq<byte>): Result<AccountingRequest, RequestError> {
    if |data| < MIN_LENGTH then Failure(DataTooShort)
    else
      var lead :- LeadOf(data);
      if !HasSizes(data) then Failure(InvalidArgSize)
      else
        var strings :- StringsOf(data);
        Success(Assemble(lead, strings))
  }

  /** The loop that reads the argument length bytes. */
  method ReadArgSizes(cursor: Cursor, argCnt: nat) returns (sizes: Option<seq<byte>>)
    requires cursor.Valid()
    modifies cursor
    ensures cursor.Valid()
    ensures old(cursor.position) + argCnt <= |cursor.data| ==>
              && sizes == Some(cursor.data[old(cursor.position)..old(cursor.position) + argCnt])
              && cursor.position == old(cursor.position) + argCnt
    ensures old(cursor.position) + argCnt > |cursor.data| ==> sizes == None
  {
    var acc := [];
    for i := 0 to argCnt
      invariant cursor.Valid() && cursor.position == old(cursor.position) + i
      invariant acc == cursor.data[old(cursor.position)..old(cursor.position) + i]
    {
      var size := cursor.ReadU8();
      if size.None? {
        return None;
      }
      acc := acc + [size.value];
    }
    sizes := Some(acc);
  }

  /** The loop that cuts out the arguments. */
  method ReadArgs(cursor: Cursor, sizes: seq<byte>) returns (r: Result<seq<Text>, RequestError>)
    requires cursor.Valid() && HasSizes(cursor.data)
    requires sizes == cursor.data[ARG_SIZE_OFFSET..ARG_SIZE_OFFSET + cursor.data[8]]
    requires cursor.position == ArgAt(cursor.data, 0)
    modifies cursor
    ensures r == Args(cursor.data, |sizes|)
  {
    var args := [];
    for i := 0 to |sizes|
      invariant cursor.Valid() && cursor.position == ArgAt(cursor.data, i)
      invariant Args(cursor.data, i) == Success(args)
    {
      hide Utf8Valid;
      var arg := cursor.ReadString(sizes[i]);
      if arg.Failure? {
        ArgsStopAtFailure(cursor.data, i + 1, |sizes|);
        return Failure(InvalidArg);
      }
      args := args + [arg.value];
    }
    r := Success(args);
  }

  lemma {:induction false} ArgsStopAtFailure(data: seq<byte>, i: nat, n: nat)
    requires HasSizes(data) && i <= n <= data[8]
    requires Args(data, i).Failure?
    ensures Args(data, n) == Args(data, i)
    decreases n - i
  {
    if i < n {
      ArgsStopAtFailure(data, i, n - 1);
    }
  }

  method ReadLead(cursor: Cursor) returns (r: Result<Lead, RequestError>)
    requires cursor.Valid() && cursor.position == 0 && |cursor.data| >= MIN_LENGTH
    modifies cursor
    ensures r == LeadOf(cursor.data)
    ensures r.Success? ==> cursor.position == 5
  {
    var b := cursor.ReadU8();
    var flags := AccountingFlagsFromBits(b.value);
    if flags.None? {
      return Failure(InvalidFlags);
    }
    b := cursor.ReadU8();
    var authenMethod := AuthenMethodFromCode(b.value);
    if authenMethod.None? {
      return Failure(InvalidAuthenMethod);
    }
    var privLvl := cursor.ReadU8();
    b := cursor.ReadU8();
    var authenType := AuthenTypeFromCode(b.value);
    if authenType.None? {
      return Failure(InvalidAuthenType);
    }
    b := cursor.ReadU8();
    var authenService := AuthenServiceFromCode(b.value);
    if authenService.None? {
      return Failure(InvalidAuthenService);
    }
    r := Success(Lead(flags.value, authenMethod.value, privLvl.value, authenType.value, authenService.value));
  }

  method ReadStrings(cursor: Cursor, userLen: byte, portLen: byte, remAddrLen: byte, sizes: seq<byte>)
    returns (r: Result<Strings, RequestError>)
    requires cursor.Valid() && HasSizes(cursor.data) && cursor.position == UserAt(cursor.data)
    requires userLen == cursor.data[5] && portLen == cursor.data[6] && remAddrLen == cursor.data[7]
    requires sizes == cursor.data[ARG_SIZE_OFFSET..ARG_SIZE_OFFSET + cursor.data[8]]
    modifies cursor
    ensures r == StringsOf(cursor.data)
  {
    hide Utf8Valid, Args;
    var user := cursor.ReadString(userLen);
    if user.Failure? {
      return Failure(InvalidUser);
    }
    var port := cursor.ReadString(portLen);
    if port.Failure? {
      return Failure(InvalidPort);
    }
    var remAddress := cursor.ReadString(remAddrLen);
    if remAddress.Failure? {
      return Failure(InvalidRemAddress);
    }
    var args := ReadArgs(cursor, sizes);
    if args.Failure? {
      return Failure(args.error);
    }
    r := Success(Strings(user.value, port.value, remAddress.value, args.value));
  }

  /** `AccountingRequest::from_bytes`, reading through a cursor. */
  method FromBytes(data: seq<byte>) returns (r: Result<AccountingRequest, RequestError>)
    ensures r == Decoding(data)
  {
    if |data| < MIN_LENGTH {
      return Failure(DataTooShort);
    }
    var cursor := new Cursor(data);
    var lead := ReadLead(cursor);
    if lead.Failure? {
      return Failure(lead.error);
    }
    var userLen := cursor.ReadU8();
    var portLen := cursor.ReadU8();
    var remAddrLen := cursor.ReadU8();
    var argCnt := cursor.ReadU8();
    var sizes := ReadArgSizes(cursor, argCnt.value);
    if sizes.None? {
      return Failure(InvalidArgSize);
    }
    var strings := ReadStrings(cursor, userLen.value, portLen.value, remAddrLen.value, sizes.value);
    if strings.Failure? {
      return Failure(strings.error);
    }
    r := Success(Assemble(lead.value, strings.value));
  }

  datatype PacketError = LengthMismatch | Undecodable(error: RequestError)

  /** `AccountingRequest::from_packet`; the size computation may panic. */
  method FromPacket(p: Packet) returns (r: Attempt<Result<AccountingRequest, PacketError>>)
    ensures r == PacketDecoding(p)
  {
    var ok, expected := ComputeSize(p.body);
    if !ok {
      return Panicked;
    }
    if |p.body| < expected {
      return Returned(Failure(LengthMismatch));
    }
    var request := FromBytes(p.body);
    match request
    case Success(value) => r := Returned(Success(value));
    case Failure(error) => r := Returned(Failure(Undecodable(error)));
  }

  function PacketDecoding(p: Packet): Attempt<Result<AccountingRequest, PacketError>> {
    if !HasSizes(p.body) then Panicked
    else if |p.body| < SizeFromBytes(p.body) then Returned(Failure(LengthMismatch))
    else
      match Decoding(p.body)
      case Success(value) => Returned(Success(value))
      case Failure(error) => Returned(Failure(Undecodable(error)))
  }

  // ---------- Encoding ----------

  /** Each argument's length, cast to a byte. */
  function Sizes(args: seq<Text>): (s: seq<byte>)
    ensures |s| == |args|
  {
    seq(|args|, i requires 0 <= i < |args| => |args[i]| % 0x100)
  }

  /** The arguments one after the other. */
  function Joined(args: seq<Text>): seq<byte> {
    if args == [] then [] else Joined(args[..|args| - 1]) + args[|args| - 1]
  }

  function Fixed(r: AccountingRequest): (s: seq<byte>)
    ensures |s| == MIN_LENGTH
  {
    [r.flags.Bits(), r.authenMethod.Code(), r.privLvl, r.authenType.Code(), r.authenService.Code(),
     |r.user| % 0x100, |r.port| % 0x100, |r.remAddress| % 0x100, |r.args| % 0x100]
  }

  function Encoding(r: AccountingRequest): seq<byte> {
    Fixed(r) + Sizes(r.args) + r.user + r.port + r.remAddress + Joined(r.args)
  }

  /** `to_bytes`: two loops over the arguments, one for the lengths and one
      for the contents. */
  method ToBytes(r: AccountingRequest) returns (data: seq<byte>)
    ensures data == Encoding(r)
  {
    data := Fixed(r);
    for i := 0 to |r.args|
      invariant data == Fixed(r) + Sizes(r.args)[..i]
    {
      data := data + [|r.args[i]| % 0x100];
    }
    data := data + r.user;
    data := data + r.port;
    data := data + r.remAddress;
    ghost var front := data;
    for i := 0 to |r.args|
      invariant data == front + Joined(r.args[..i])
    {
      assert r.args[..i + 1][..i] == r.args[..i];
      data := data + r.args[i];
    }
    assert r.args[..|r.args|] == r.args;
  }

  // ---------- Layout of a request ----------

  /** The data announces and holds every part of the request. */
  predicate LaidOut(data: seq<byte>, r: AccountingRequest) {
    && HasSizes(data)
    && data[..MIN_LENGTH] == Fixed(r)
    && r.WithinBounds()
    && data[8] == |r.args|
    && ArgAt(data, data[8]) <= |data|
    && data[ARG_SIZE_OFFSET..UserAt(data)] == Sizes(r.args)
    && data[UserAt(data)..PortAt(data)] == r.user
    && data[PortAt(data)..RemAddressAt(data)] == r.port
    && data[RemAddressAt(data)..ArgAt(data, 0)] == r.remAddress
    && data[ArgAt(data, 0)..ArgAt(data, data[8])] == Joined(r.args)
  }

  /** The announced argument lengths add up to the joined arguments. */
  lemma {:induction false} SizesAddUp(data: seq<byte>, args: seq<Text>, n: nat)
    requires HasSizes(data) && n <= |args| <= data[8]
    requires forall i :: 0 <= i < n ==> data[ARG_SIZE_OFFSET + i] == |args[i]|
    ensures ArgBytes(data, n) == |Joined(args[..n])|
  {
    if n > 0 {
      SizesAddUp(data, args, n - 1);
      assert args[..n][..n - 1] == args[..n - 1];
    }
  }

  // ---------- Decode, then encode ----------

  lemma TextIsSlice(data: seq<byte>, from: nat, len: nat, error: RequestError)
    requires TextAt(data, from, len, error).Success?
    ensures from + len <= |data| && TextAt(data, from, len, error).value == data[from..from + len]
  {
    hide Utf8Valid;
  }

  lemma Adjacent(data: seq<byte>, a: nat, b: nat, c: nat)
    requires a <= b <= c <= |data|
    ensures data[a..b] + data[b..c] == data[a..c]
  {
  }

  lemma {:induction false} ArgsAreSlices(data: seq<byte>, n: nat)
    requires HasSizes(data) && n <= data[8] && Args(data, n).Success?
    requires ArgAt(data, 0) <= |data|
    ensures ArgAt(data, n) <= |data|
    ensures Joined(Args(data, n).value) == data[ArgAt(data, 0)..ArgAt(data, n)]
    ensures forall i :: 0 <= i < n ==> |Args(data, n).value[i]| == data[ARG_SIZE_OFFSET + i]
  {
    hide Utf8Valid, TextAt;
    if n > 0 {
      ArgsAreSlices(data, n - 1);
      TextIsSlice(data, ArgAt(data, n - 1), data[ARG_SIZE_OFFSET + n - 1], InvalidArg);
      Adjacent(data, ArgAt(data, 0), ArgAt(data, n - 1), ArgAt(data, n));
      var args := Args(data, n).value;
      assert args[..n - 1] == Args(data, n - 1).value;
    }
  }

  lemma LeadReproduced(data: seq<byte>)
    requires |data| >= MIN_LENGTH && LeadOf(data).Success?
    ensures var lead := LeadOf(data).value;
            && lead.flags.Bits() == data[0] && lead.authenMethod.Code() == data[1] && lead.privLvl == data[2]
            && lead.authenType.Code() == data[3] && lead.authenService.Code() == data[4]
  {
    var lead := LeadOf(data).value;
    assert AccountingFlagsFromBits(data[0]) == Some(lead.flags);
    assert AuthenMethodFromCode(data[1]) == Some(lead.authenMethod);
    assert AuthenTypeFromCode(data[3]) == Some(lead.authenType);
    assert AuthenServiceFromCode(data[4]) == Some(lead.authenService);
  }

  lemma StringsReproduced(data: seq<byte>)
    requires HasSizes(data) && StringsOf(data).Success?
    ensures var s := StringsOf(data).value;
            && ArgAt(data, data[8]) <= |data|
            && |s.args| == data[8]
            && s.user == data[UserAt(data)..PortAt(data)]
            && s.port == data[PortAt(data)..RemAddressAt(data)]
            && s.remAddress == data[RemAddressAt(data)..ArgAt(data, 0)]
            && Joined(s.args) == data[ArgAt(data, 0)..ArgAt(data, data[8])]
            && forall i :: 0 <= i < |s.args| ==> |s.args[i]| == data[ARG_SIZE_OFFSET + i]
  {
    hide Utf8Valid, TextAt, Joined, Args;
    TextIsSlice(data, UserAt(data), data[5], InvalidUser);
    TextIsSlice(data, PortAt(data), data[6], InvalidPort);
    TextIsSlice(data, RemAddressAt(data), data[7], InvalidRemAddress);
    ArgsAreSlices(data, data[8]);
  }

  lemma FixedReproduced(data: seq<byte>)
    requires Decoding(data).Success?
    ensures data[..MIN_LENGTH] == Fixed(Decoding(data).value)
  {
    hide Utf8Valid, LeadOf, StringsOf;
    LeadReproduced(data);
    StringsReproduced(data);
    var r := Decoding(data).value;
    assert |r.user| == data[5] && |r.port| == data[6] && |r.remAddress| == data[7] && |r.args| == data[8];
  }

  lemma SizesToSlice(data: seq<byte>, args: seq<Text>)
    requires |data| >= ARG_SIZE_OFFSET + |args|
    requires forall i :: 0 <= i < |args| ==> |args[i]| == data[ARG_SIZE_OFFSET + i]
    ensures data[ARG_SIZE_OFFSET..ARG_SIZE_OFFSET + |args|] == Sizes(args)
  {
  }

  lemma DecodedIsLaidOut(data: seq<byte>)
    requires Decoding(data).Success?
    ensures LaidOut(data, Decoding(data).value)
  {
    var r := Decoding(data).value;
    FixedReproduced(data);
    StringsReproduced(data);
    SizesToSlice(data, r.args);
  }

  lemma SixSlices(data: seq<byte>, a: nat, b: nat, c: nat, d: nat, e: nat, f: nat)
    requires a <= b <= c <= d <= e <= f <= |data|
    ensures data[..a] + data[a..b] + data[b..c] + data[c..d] + data[d..e] + data[e..f] == data[..f]
  {
    Adjacent(data, 0, a, b);
    Adjacent(data, 0, b, c);
    Adjacent(data, 0, c, d);
    Adjacent(data, 0, d, e);
    Adjacent(data, 0, e, f);
  }

  lemma LaidOutEncodes(data: seq<byte>, r: AccountingRequest)
    requires LaidOut(data, r)
    ensures Encoding(r) == data[..ArgAt(data, data[8])]
  {
    hide Utf8Valid, Fixed, Sizes, Joined;
    SixSlices(data, MIN_LENGTH, UserAt(data), PortAt(data), RemAddressAt(data), ArgAt(data, 0), ArgAt(data, data[8]));
  }

  /** Encoding an accepted body reproduces exactly the bytes that were read:
      as many as `size_from_bytes` says, and one more per argument. */
  lemma DecodeThenEncode(data: seq<byte>)
    requires Decoding(data).Success?
    ensures HasSizes(data) && SizeFromBytes(data) + data[8] <= |data|
    ensures Encoding(Decoding(data).value) == data[..SizeFromBytes(data) + data[8]]
    ensures Decoding(data).value.WithinBounds()
  {
    DecodedIsLaidOut(data);
    LaidOutEncodes(data, Decoding(data).value);
  }

  // ---------- Encode, then decode ----------

  lemma {:induction false} JoinedSplit(args: seq<Text>, n: nat)
    requires n < |args|
    ensures |Joined(args[..n])| + |args[n]| <= |Joined(args)|
    ensures Joined(args)[|Joined(args[..n])|..|Joined(args[..n])| + |args[n]|] == args[n]
  {
    var init := args[..|args| - 1];
    if n < |args| - 1 {
      assert init[..n] == args[..n];
      JoinedSplit(init, n);
    }
  }

  lemma SixParts(a: seq<byte>, b: seq<byte>, c: seq<byte>, d: seq<byte>, e: seq<byte>, f: seq<byte>, rest: seq<byte>)
    ensures var s := a + b + c + d + e + f + rest;
            var i := |a|; var j := i + |b|; var k := j + |c|; var l := k + |d|; var m := l + |e|; var n := m + |f|;
            && n <= |s|
            && s[..i] == a && s[i..j] == b && s[j..k] == c && s[k..l] == d && s[l..m] == e && s[m..n] == f
  {
  }

  lemma FixedFromPrefix(data: seq<byte>, r: AccountingRequest)
    requires |data| >= 9 && data[..9] == Fixed(r) && r.WithinBounds()
    ensures data[5] == |r.user| && data[6] == |r.port| && data[7] == |r.remAddress| && data[8] == |r.args|
  {
    assert forall i :: 0 <= i < 9 ==> data[i] == data[..9][i];
  }

  lemma SizesFromSlice(data: seq<byte>, args: seq<Text>)
    requires |data| >= ARG_SIZE_OFFSET + |args|
    requires data[ARG_SIZE_OFFSET..ARG_SIZE_OFFSET + |args|] == Sizes(args)
    requires forall i :: 0 <= i < |args| ==> |args[i]| <= MAX_LEN
    ensures forall i :: 0 <= i < |args| ==> data[ARG_SIZE_OFFSET + i] == |args[i]|
  {
    forall i | 0 <= i < |args|
      ensures data[ARG_SIZE_OFFSET + i] == |args[i]|
    {
      assert data[ARG_SIZE_OFFSET..ARG_SIZE_OFFSET + |args|][i] == Sizes(args)[i];
    }
  }

  lemma EncodingIsLaidOut(r: AccountingRequest, rest: seq<byte>)
    requires r.WithinBounds()
    ensures LaidOut(Encoding(r) + rest, r)
  {
    hide Utf8Valid, Fixed, Sizes, Joined;
    SixParts(Fixed(r), Sizes(r.args), r.user, r.port, r.remAddress, Joined(r.args), rest);
    PartsAreLaidOut(Encoding(r) + rest, r);
  }

  lemma PartsAreLaidOut(data: seq<byte>, r: AccountingRequest)
    requires r.WithinBounds()
    requires var i := MIN_LENGTH; var j := i + |r.args|; var k := j + |r.user|; var l := k + |r.port|;
             var m := l + |r.remAddress|; var n := m + |Joined(r.args)|;
             && n <= |data|
             && data[..i] == Fixed(r) && data[i..j] == Sizes(r.args) && data[j..k] == r.user
             && data[k..l] == r.port && data[l..m] == r.remAddress && data[m..n] == Joined(r.args)
    ensures LaidOut(data, r)
  {
    hide Utf8Valid, Fixed, Sizes, Joined;
    FixedFromPrefix(data, r);
    SizesFromSlice(data, r.args);
    SizesAddUp(data, r.args, |r.args|);
    assert r.args[..|r.args|] == r.args;
  }

  lemma SliceOfSlice(data: seq<byte>, at: nat, end: nat, lo: nat, hi: nat)
    requires at <= end <= |data| && lo <= hi && at + hi <= end
    ensures data[at + lo..at + hi] == data[at..end][lo..hi]
  {
    var whole := data[at..end];
    forall k | 0 <= k < hi - lo
      ensures data[at + lo..at + hi][k] == whole[lo..hi][k]
    {
      assert whole[lo..hi][k] == whole[lo + k] == data[at + lo + k];
    }
  }

  /** Each argument stands where the layout says. */
  predicate ArgInPlace(data: seq<byte>, arg: Text, n: nat)
    requires HasSizes(data) && n < data[8]
  {
    && data[ARG_SIZE_OFFSET + n] == |arg|
    && ArgAt(data, n) + |arg| <= |data|
    && data[ArgAt(data, n)..ArgAt(data, n) + |arg|] == arg
  }

  lemma ArgsAreInPlace(data: seq<byte>, r: AccountingRequest, n: nat)
    requires LaidOut(data, r) && n < |r.args|
    ensures ArgInPlace(data, r.args[n], n)
  {
    hide Utf8Valid, Fixed, Sizes, Joined;
    SizesFromSlice(data, r.args);
    SizesAddUp(data, r.args, n);
    JoinedSplit(r.args, n);
    var lo := |Joined(r.args[..n])|;
    SliceOfSlice(data, ArgAt(data, 0), ArgAt(data, data[8]), lo, lo + |r.args[n]|);
  }

  lemma TextFound(data: seq<byte>, from: nat, text: Text, error: RequestError)
    requires from + |text| <= |data| && data[from..from + |text|] == text
    ensures TextAt(data, from, |text|, error) == Success(text)
  {
  }

  lemma {:induction false} ArgsComeBack(data: seq<byte>, args: seq<Text>, n: nat)
    requires HasSizes(data) && n <= |args| == data[8]
    requires forall i :: 0 <= i < n ==> ArgInPlace(data, args[i], i)
    ensures Args(data, n) == Success(args[..n])
  {
    if n > 0 {
      ArgsComeBack(data, args, n - 1);
      assert ArgInPlace(data, args[n - 1], n - 1);
      TextFound(data, ArgAt(data, n - 1), args[n - 1], InvalidArg);
      assert args[..n] == args[..n - 1] + [args[n - 1]];
    }
  }

  lemma LeadComesBack(data: seq<byte>, r: AccountingRequest)
    requires |data| >= MIN_LENGTH && data[..MIN_LENGTH] == Fixed(r)
    ensures LeadOf(data) == Success(Lead(r.flags, r.authenMethod, r.privLvl, r.authenType, r.authenService))
  {
    assert forall i :: 0 <= i < 9 ==> data[i] == data[..9][i];
    assert AccountingFlagsFromBits(data[0]) == Some(r.flags);
    assert AuthenMethodFromCode(data[1]) == Some(r.authenMethod);
    assert AuthenTypeFromCode(data[3]) == Some(r.authenType);
    assert AuthenServiceFromCode(data[4]) == Some(r.authenService);
  }

  lemma StringsComeBack(data: seq<byte>, r: AccountingRequest)
    requires LaidOut(data, r)
    ensures StringsOf(data) == Success(Strings(r.user, r.port, r.remAddress, r.args))
  {
    hide Utf8Valid, Fixed, Sizes, Joined, TextAt;
    FixedFromPrefix(data, r);
    TextFound(data, UserAt(data), r.user, InvalidUser);
    TextFound(data, PortAt(data), r.port, InvalidPort);
    TextFound(data, RemAddressAt(data), r.remAddress, InvalidRemAddress);
    assert Args(data, data[8]) == Success(r.args) by {
      forall i | 0 <= i < |r.args|
        ensures ArgInPlace(data, r.args[i], i)
      {
        ArgsAreInPlace(data, r, i);
      }
      ArgsComeBack(data, r.args, |r.args|);
      assert r.args[..|r.args|] == r.args;
    }
  }

  lemma LaidOutDecodes(data: seq<byte>, r: AccountingRequest)
    requires LaidOut(data, r)
    ensures Decoding(data) == Success(r)
  {
    LeadComesBack(data, r);
    StringsComeBack(data, r);
  }

  /** Whatever follows it, an encoding decodes to the request it came from
      exactly when every length fits its one-byte field. */
  lemma EncodeThenDecode(r: AccountingRequest, rest: seq<byte>)
    ensures Decoding(Encoding(r) + rest) == Success(r) <==> r.WithinBounds()
  {
    var data := Encoding(r) + rest;
    if r.WithinBounds() {
      EncodingIsLaidOut(r, rest);
      LaidOutDecodes(data, r);
    } else if Decoding(data).Success? {
      DecodedIsLaidOut(data);
    }
  }

  lemma EncodingIsInjective(r: AccountingRequest, s: AccountingRequest)
    requires r.WithinBounds() && s.WithinBounds()
    requires Encoding(r) <= Encoding(s)
    ensures r == s
  {
    hide Encoding, Decoding, Utf8Valid;
    EncodeThenDecode(r, Encoding(s)[|Encoding(r)|..]);
    EncodeThenDecode(s, []);
    assert Encoding(s) + [] == Encoding(s) == Encoding(r) + Encoding(s)[|Encoding(r)|..];
  }

  // ---------- What is accepted ----------

  /** Every string the layout announces lies inside the data and is UTF-8. */
  predicate StringsLegal(data: seq<byte>)
    requires HasSizes(data)
  {
    && SizeFromBytes(data) + data[8] <= |data|
    && Utf8Valid(data[UserAt(data)..PortAt(data)])
    && Utf8Valid(data[PortAt(data)..RemAddressAt(data)])
    && Utf8Valid(data[RemAddressAt(data)..ArgAt(data, 0)])
    && forall i :: 0 <= i < data[8] ==> ArgLegal(data, i)
  }

  predicate ArgLegal(data: seq<byte>, i: nat)
    requires HasSizes(data) && i < data[8]
  {
    ArgAt(data, i + 1) <= |data| && Utf8Valid(data[ArgAt(data, i)..ArgAt(data, i + 1)])
  }

  lemma {:induction false} ArgsAcceptance(data: seq<byte>, n: nat)
    requires HasSizes(data) && n <= data[8]
    ensures Args(data, n).Success? <==> forall i :: 0 <= i < n ==> ArgLegal(data, i)
  {
    if n > 0 {
      ArgsAcceptance(data, n - 1);
      assert ArgLegal(data, n - 1) <==>
        TextAt(data, ArgAt(data, n - 1), data[ARG_SIZE_OFFSET + n - 1], InvalidArg).Success?;
    }
  }

  /** The last argument ends where the announced size does. */
  lemma ArgsEnd(data: seq<byte>)
    requires HasSizes(data)
    ensures ArgAt(data, data[8]) == SizeFromBytes(data) + data[8]
    ensures data[8] > 0 && ArgLegal(data, data[8] - 1) ==> SizeFromBytes(data) + data[8] <= |data|
  {
  }

  lemma StringsAcceptance(data: seq<byte>)
    requires HasSizes(data)
    ensures StringsOf(data).Success? <==> StringsLegal(data)
  {
    hide Utf8Valid, Args;
    ArgsAcceptance(data, data[8]);
    ArgsEnd(data);
  }

  /** `from_bytes` accepts exactly the bodies whose size bytes are all there,
      whose flags and enumerations are legal, and whose strings all lie inside
      the data and are valid UTF-8. */
  lemma Acceptance(data: seq<byte>)
    ensures Decoding(data).Success?
       <==> && HasSizes(data)
            && data[0] in {0x00, 0x02, 0x04, 0x06, 0x08, 0x0a, 0x0c, 0x0e}
            && data[1] in {0x00, 0x01, 0x02, 0x03, 0x04, 0x05, 0x06, 0x08, 0x10, 0x11, 0x20}
            && data[3] in {0x00, 0x01, 0x02, 0x03, 0x05, 0x06}
            && data[4] in {0x0, 0x1, 0x2, 0x3, 0x5, 0x6, 0x7, 0x8, 0x9}
            && StringsLegal(data)
  {
    if |data| >= MIN_LENGTH {
      LeadAcceptance(data);
      if HasSizes(data) {
        StringsAcceptance(data);
      }
    }
  }

  lemma LeadAcceptance(data: seq<byte>)
    requires |data| >= MIN_LENGTH
    ensures LeadOf(data).Success?
       <==> && data[0] in {0x00, 0x02, 0x04, 0x06, 0x08, 0x0a, 0x0c, 0x0e}
            && data[1] in {0x00, 0x01, 0x02, 0x03, 0x04, 0x05, 0x06, 0x08, 0x10, 0x11, 0x20}
            && data[3] in {0x00, 0x01, 0x02, 0x03, 0x05, 0x06}
            && data[4] in {0x0, 0x1, 0x2, 0x3, 0x5, 0x6, 0x7, 0x8, 0x9}
  {
    assert AccountingFlagsFromBits(data[0]).Some?
      <==> data[0] in {0x00, 0x02, 0x04, 0x06, 0x08, 0x0a, 0x0c, 0x0e};
    assert AuthenMethodFromCode(data[1]).Some?
      <==> data[1] in {0x00, 0x01, 0x02, 0x03, 0x04, 0x05, 0x06, 0x08, 0x10, 0x11, 0x20};
    assert AuthenTypeFromCode(data[3]).Some? <==> data[3] in {0x00, 0x01, 0x02, 0x03, 0x05, 0x06};
    assert AuthenServiceFromCode(data[4]).Some?
      <==> data[4] in {0x0, 0x1, 0x2, 0x3, 0x5, 0x6, 0x7, 0x8, 0x9};
  }

  lemma TextIsLocal(data: seq<byte>, other: seq<byte>, end: nat, from: nat, len: nat, error: RequestError)
    requires from + len <= end <= |data| && data[..end] <= other
    ensures TextAt(data, from, len, error) == TextAt(other, from, len, error)
  {
    hide Utf8Valid;
    assert data[from..from + len] == data[..end][from..from + len] == other[from..from + len];
  }

  /** Every announced byte is there. */
  predicate Complete(data: seq<byte>) {
    HasSizes(data) && SizeFromBytes(data) + data[8] <= |data|
  }

  /** The bytes a decoder has any business with. */
  function Announced(data: seq<byte>): seq<byte>
    requires Complete(data)
  {
    data[..SizeFromBytes(data) + data[8]]
  }

  lemma {:induction false} ArgBytesAreLocal(data: seq<byte>, other: seq<byte>, n: nat)
    requires |data| >= ARG_SIZE_OFFSET + n && data[..ARG_SIZE_OFFSET + n] <= other
    ensures ArgBytes(data, n) == ArgBytes(other, n)
  {
    if n > 0 {
      assert data[ARG_SIZE_OFFSET + n - 1] == data[..ARG_SIZE_OFFSET + n][ARG_SIZE_OFFSET + n - 1];
      assert data[..ARG_SIZE_OFFSET + n - 1] <= other;
      ArgBytesAreLocal(data, other, n - 1);
    }
  }

  lemma LayoutIsLocal(data: seq<byte>, other: seq<byte>, n: nat)
    requires Complete(data) && Announced(data) <= other && n <= data[8]
    ensures forall i :: 0 <= i < UserAt(data) ==> other[i] == data[i]
    ensures HasSizes(other) && UserAt(other) == UserAt(data) && ArgAt(other, n) == ArgAt(data, n)
    ensures ArgAt(data, n) <= |Announced(data)|
  {
    var front := Announced(data);
    assert forall i :: 0 <= i < UserAt(data) ==> data[i] == front[i] == other[i];
    assert data[..ARG_SIZE_OFFSET + n] == front[..ARG_SIZE_OFFSET + n];
    ArgBytesAreLocal(data, other, n);
    ArgBytesGrow(data, n, data[8]);
  }

  lemma {:induction false} ArgBytesGrow(data: seq<byte>, n: nat, m: nat)
    requires n <= m && |data| >= ARG_SIZE_OFFSET + m
    ensures ArgBytes(data, n) <= ArgBytes(data, m)
    decreases m - n
  {
    if n < m {
      ArgBytesGrow(data, n, m - 1);
    }
  }

  lemma {:induction false} ArgsAreLocal(data: seq<byte>, other: seq<byte>, n: nat)
    requires Complete(data) && Announced(data) <= other && n <= data[8]
    requires HasSizes(other) && other[8] == data[8]
    ensures Args(data, n) == Args(other, n)
  {
    hide TextAt, Announced, Complete;
    if n > 0 {
      ArgsAreLocal(data, other, n - 1);
      ArgIsLocal(data, other, n - 1);
    }
  }

  lemma ArgIsLocal(data: seq<byte>, other: seq<byte>, n: nat)
    requires Complete(data) && Announced(data) <= other && n < data[8]
    requires HasSizes(other) && other[8] == data[8]
    ensures other[ARG_SIZE_OFFSET + n] == data[ARG_SIZE_OFFSET + n] && ArgAt(other, n) == ArgAt(data, n)
    ensures TextAt(data, ArgAt(data, n), data[ARG_SIZE_OFFSET + n], InvalidArg)
         == TextAt(other, ArgAt(data, n), data[ARG_SIZE_OFFSET + n], InvalidArg)
  {
    hide TextAt;
    LayoutIsLocal(data, other, n);
    LayoutIsLocal(data, other, n + 1);
    TextIsLocal(data, other, |Announced(data)|, ArgAt(data, n), data[ARG_SIZE_OFFSET + n], InvalidArg);
  }

  lemma StringsAreLocal(data: seq<byte>, other: seq<byte>)
    requires Complete(data) && Announced(data) <= other
    ensures HasSizes(other) && StringsOf(other) == StringsOf(data)
  {
    hide TextAt, Args;
    LayoutIsLocal(data, other, 0);
    ArgsAreLocal(data, other, data[8]);
    var end := |Announced(data)|;
    TextIsLocal(data, other, end, UserAt(data), data[5], InvalidUser);
    TextIsLocal(data, other, end, PortAt(data), data[6], InvalidPort);
    TextIsLocal(data, other, end, RemAddressAt(data), data[7], InvalidRemAddress);
  }

  /** Bytes behind the announced ones never affect the result, accepted or
      rejected: any data that starts with them decodes to the same request or
      the same error. */
  lemma TrailingBytesAreIgnored(data: seq<byte>, other: seq<byte>)
    requires Complete(data) && Announced(data) <= other
    ensures Decoding(other) == Decoding(data)
  {
    hide LeadOf, StringsOf, Utf8Valid;
    LayoutIsLocal(data, other, 0);
    StringsAreLocal(data, other);
    assert LeadOf(other) == LeadOf(data) by {
      SameLead(data, other);
    }
  }

  lemma SameLead(data: seq<byte>, other: seq<byte>)
    requires |data| >= MIN_LENGTH && |other| >= MIN_LENGTH
    requires forall i :: 0 <= i < MIN_LENGTH ==> other[i] == data[i]
    ensures LeadOf(other) == LeadOf(data)
  {
  }

  /** The size check of `from_packet` rejects nothing `from_bytes` accepts;
      `from_packet` panics exactly when a size byte is missing, where
      `from_bytes` reports an error instead. */
  lemma SizeCheckIsRedundant(p: Packet)
    ensures PacketDecoding(p) == Panicked <==> !HasSizes(p.body)
    ensures !HasSizes(p.body) ==> Decoding(p.body).Failure?
    ensures HasSizes(p.body) ==>
              && (PacketDecoding(p).value.Success? <==> Decoding(p.body).Success?)
              && (Decoding(p.body).Success? ==> PacketDecoding(p).value.value == Decoding(p.body).value)
  {
    if Decoding(p.body).Success? {
      DecodeThenEncode(p.body);
    }
  }
}
