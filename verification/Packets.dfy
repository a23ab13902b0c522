/** Packets and the four conversions between clear and obfuscated bodies. */
module Packets {
  import opened Primitives
  import opened Obfuscation
  import Headers

  type Header = Headers.Header

  datatype Packet = Packet(header: Header, body: seq<byte>) {
    /** The unencrypted flag, which alone tells clear from obfuscated. */
    predicate Clear() {
      header.flags.unencrypted
    }

    /** The body is exactly as long as the header says. */
    predicate Sized() {
      |body| == header.length
    }
  }

  /** `Packet::new` refuses a body that is too short, and only that. */
  function New(header: Header, body: seq<byte>): Result<Packet, ()> {
    if |body| < header.length then Failure(()) else Success(Packet(header, body))
  }

  function Encoding(p: Packet): seq<byte> {
    Headers.Encoding(p.header) + p.body
  }

  /** `Packet::to_bytes`. */
  method ToBytes(p: Packet) returns (bytes: seq<byte>)
    ensures bytes == Encoding(p)
  {
    var header := Headers.ToBytes(p.header);
    bytes := header[..];
    bytes := bytes + p.body;
  }

  /** `Packet::from_bytes` takes everything after the header as the body and
      never compares it with the header's length. */
  function FromBytes(data: seq<byte>): Result<Packet, Headers.HeaderError> {
    var header :- Headers.FromBytes(data);
    Success(Packet(header, data[Headers.HEADER_LENGTH..]))
  }

  lemma EncodeThenDecode(p: Packet)
    ensures FromBytes(Encoding(p)) == Success(p)
  {
    Headers.EncodeThenDecode(p.header, p.body);
    assert Encoding(p)[Headers.HEADER_LENGTH..] == p.body;
  }

  lemma DecodeThenEncode(data: seq<byte>)
    requires FromBytes(data).Success?
    ensures Encoding(FromBytes(data).value) == data
  {
    Headers.DecodeThenEncode(data);
  }

  // ---------- The copying forms ----------

  function Flip(c: Cipher, p: Packet): Attempt<Option<Packet>> {
    var header := p.header.WithUnencrypted(!p.Clear());
    match New(header, Convert(c, p.header, p.body))
    case Success(q) => Returned(Some(q))
    case Failure(_) => Panicked
  }

  /** `as_obfuscated`: None when the packet already is; the `unwrap` of
      `Packet::new` panics when the converted body is too short. */
  function AsObfuscated(c: Cipher, p: Packet): Attempt<Option<Packet>> {
    if !p.Clear() then Returned(None) else Flip(c, p)
  }

  function AsDeobfuscated(c: Cipher, p: Packet): Attempt<Option<Packet>> {
    if p.Clear() then Returned(None) else Flip(c, p)
  }

  // ---------- The in-place forms ----------

  /** What an in-place form leaves: the flag is toggled first, so the pad is
      built from the header that already carries the new flag. */
  function Toggled(c: Cipher, p: Packet): Attempt<Packet> {
    var header := p.header.WithUnencrypted(!p.Clear());
    if |p.body| > header.length then Panicked
    else Returned(Packet(header, Convert(c, header, p.body)))
  }

  function Obfuscated(c: Cipher, p: Packet): Attempt<Packet> {
    if !p.Clear() then Returned(p) else Toggled(c, p)
  }

  function Deobfuscated(c: Cipher, p: Packet): Attempt<Packet> {
    if p.Clear() then Returned(p) else Toggled(c, p)
  }

  /** A packet whose header and body are converted where they stand. */
  class OwnedPacket {
    var header: Header
    var body: array<byte>

    constructor (p: Packet)
      ensures Value() == p && fresh(body)
    {
      header := p.header;
      body := new byte[|p.body|](i requires 0 <= i < |p.body| => p.body[i]);
    }

    function Value(): Packet
      reads this, body
    {
      Packet(header, body[..])
    }

    /** `to_obfuscated`; `ok` is false when the conversion panics. */
    method ToObfuscated(c: Cipher) returns (ok: bool)
      modifies this`header, body
      ensures ok <==> Obfuscated(c, old(Value())).Returned?
      ensures ok ==> Obfuscated(c, old(Value())) == Returned(Value())
    {
      var isObfuscated := !header.flags.unencrypted;
      if isObfuscated {
        return true;
      }
      header := header.WithUnencrypted(false);
      ok := ConvertInPlace(c, header, body);
    }

    /** `to_deobfuscated`. */
    method ToDeobfuscated(c: Cipher) returns (ok: bool)
      modifies this`header, body
      ensures ok <==> Deobfuscated(c, old(Value())).Returned?
      ensures ok ==> Deobfuscated(c, old(Value())) == Returned(Value())
    {
      var isDeobfuscated := header.flags.unencrypted;
      if isDeobfuscated {
        return true;
      }
      header := header.WithUnencrypted(true);
      ok := ConvertInPlace(c, header, body);
    }
  }

  // ---------- Algebra ----------

  /** Toggling twice restores a packet whose body fits its pad, although the
      two conversions build their pads from headers with different flags. */
  lemma ToggleIsInvolution(c: Cipher, p: Packet)
    requires |p.body| <= p.header.length
    ensures Toggled(c, p).Returned? && Toggled(c, Toggled(c, p).value) == Returned(p)
  {
    var q := Toggled(c, p).value;
    PadIgnoresFlagsAndType(c, q.header, p.header);
    assert Convert(c, p.header, q.body) == Convert(c, p.header, Convert(c, p.header, p.body));
    ConvertIsInvolution(c, p.header, p.body);
    assert q.header.WithUnencrypted(p.Clear()) == p.header;
  }

  /** The obfuscation algebra on every packet whose body fits its header:
      each direction absorbs the other, both are idempotent, a clear packet
      survives obfuscation and an obfuscated one survives the way back. */
  lemma ObfuscationAlgebra(c: Cipher, p: Packet)
    requires |p.body| <= p.header.length
    ensures var obf := Obfuscated(c, p);
            var deobf := Deobfuscated(c, p);
            && obf.Returned? && deobf.Returned?
            && !obf.value.Clear() && deobf.value.Clear()
            && Deobfuscated(c, obf.value) == deobf
            && Obfuscated(c, deobf.value) == obf
            && Obfuscated(c, obf.value) == obf
            && Deobfuscated(c, deobf.value) == deobf
            && (p.Clear() ==> Deobfuscated(c, obf.value) == Returned(p))
            && (!p.Clear() ==> Obfuscated(c, deobf.value) == Returned(p))
  {
    ToggleIsInvolution(c, p);
  }

  /** `q` is the clear packet `p` as it travels under a key: the same header but
      for the flag, and the body exclusive-or the pad, bit by bit. */
  predicate Scrambled(c: Cipher, p: Packet, q: Packet) {
    && p.Clear() && q.header == p.header.(flags := p.header.flags.(unencrypted := false))
    && |q.body| == |p.body| <= |Pad(c, p.header)|
    && forall i :: 0 <= i < |p.body| ==> ScrambledByte(p.body[i], Pad(c, p.header)[i], q.body[i])
  }

  predicate ScrambledByte(clear: byte, pad: byte, scrambled: byte) {
    forall k :: 0 <= k < 8 ==> (Bit(scrambled, k) <==> Bit(clear, k) != Bit(pad, k))
  }

  lemma ConvertScrambles(c: Cipher, h: Header, data: seq<byte>)
    requires |data| <= h.length
    ensures |Convert(c, h, data)| == |data|
    ensures forall i :: 0 <= i < |data| ==> ScrambledByte(data[i], Pad(c, h)[i], Convert(c, h, data)[i])
  {
    forall i, k | 0 <= i < |data| && 0 <= k < 8
      ensures Bit(Convert(c, h, data)[i], k) <==> Bit(data[i], k) != Bit(Pad(c, h)[i], k)
    {
      ConvertIsExclusiveOr(c, h, data, i, k);
    }
  }

  /** Obfuscation turns a clear packet into its scrambled form, and
      deobfuscation turns that into the clear packet it came from. */
  lemma ObfuscationScrambles(c: Cipher, p: Packet)
    requires |p.body| <= p.header.length
    ensures p.Clear() ==> Obfuscated(c, p).Returned? && Scrambled(c, p, Obfuscated(c, p).value)
    ensures !p.Clear() ==> Deobfuscated(c, p).Returned? && Scrambled(c, Deobfuscated(c, p).value, p)
  {
    var header := p.header.WithUnencrypted(!p.Clear());
    PadIgnoresFlagsAndType(c, header, p.header);
    ConvertScrambles(c, header, p.body);
    assert forall i :: 0 <= i < |p.body| ==>
        ScrambledByte(p.body[i], Pad(c, header)[i], Convert(c, header, p.body)[i]);
    assert forall a: byte, b: byte, x: byte :: ScrambledByte(a, b, x) ==> ScrambledByte(x, b, a);
  }

  /** When each form panics, and that they agree whenever neither does:
      a copying form needs the body to reach the header's length, an in-place
      form needs it not to exceed it, and both return the same packet. */
  lemma CopyingAndInPlaceAgree(c: Cipher, p: Packet)
    ensures AsObfuscated(c, p) == Returned(None) <==> !p.Clear()
    ensures AsDeobfuscated(c, p) == Returned(None) <==> p.Clear()
    ensures p.Clear() ==>
              && (AsObfuscated(c, p).Returned? <==> |p.body| >= p.header.length)
              && (Obfuscated(c, p).Returned? <==> |p.body| <= p.header.length)
              && (p.Sized() ==> AsObfuscated(c, p) == Returned(Some(Obfuscated(c, p).value)))
    ensures !p.Clear() ==>
              && (AsDeobfuscated(c, p).Returned? <==> |p.body| >= p.header.length)
              && (Deobfuscated(c, p).Returned? <==> |p.body| <= p.header.length)
              && (p.Sized() ==> AsDeobfuscated(c, p) == Returned(Some(Deobfuscated(c, p).value)))
  {
    PadIgnoresFlagsAndType(c, p.header.WithUnencrypted(!p.Clear()), p.header);
  }

  /** A body longer than the header says is cut by the copying forms: they
      return what they return for the body cut to that length. */
  lemma CopyingFormsTruncate(c: Cipher, p: Packet)
    requires |p.body| >= p.header.length
    ensures var cut := p.(body := p.body[..p.header.length]);
            AsObfuscated(c, p) == AsObfuscated(c, cut) && AsDeobfuscated(c, p) == AsDeobfuscated(c, cut)
    ensures p.Clear() ==> AsObfuscated(c, p).value.value.Sized()
    ensures !p.Clear() ==> AsDeobfuscated(c, p).value.value.Sized()
  {
    var cut := p.(body := p.body[..p.header.length]);
    assert Convert(c, p.header, cut.body) == Convert(c, p.header, p.body);
  }
}
