/** Body obfuscation, section 4.5 of RFC 8907.  MD5 itself is a parameter:
    any function from byte strings to 16-byte blocks. */
module Obfuscation {
  import opened Primitives
  import opened Headers

  const BLOCK: nat := 16

  type Block = s: seq<byte> | |s| == BLOCK witness seq(BLOCK, _ => 0)
  type Hash = seq<byte> -> Block

  /** The digest function and the shared secret of a connection. */
  datatype Cipher = Cipher(hash: Hash, key: seq<byte>)

  /** `get_first_block`: what the first block of the pad is the digest of. */
  function FirstBlock(h: Header, key: seq<byte>): seq<byte> {
    Be32(h.sessionId) + key + [h.Version(), h.seqNo]
  }

  /** MD5_{n+1} of the RFC: the chain in which every digest covers the first
      block followed by the previous digest. */
  function ChainBlock(c: Cipher, h: Header, n: nat): Block {
    if n == 0 then c.hash(FirstBlock(h, c.key))
    else c.hash(FirstBlock(h, c.key) + ChainBlock(c, h, n - 1))
  }

  function PadByte(c: Cipher, h: Header, i: nat): byte {
    ChainBlock(c, h, i / BLOCK)[i % BLOCK]
  }

  /** The pseudo-pad: the concatenated chain cut to the header's length. */
  function Pad(c: Cipher, h: Header): (pad: seq<byte>)
    ensures |pad| == h.length
  {
    seq(h.length, i requires 0 <= i => PadByte(c, h, i))
  }

  /** `generate_pad`: extends the pad one digest at a time, then truncates. */
  method GeneratePad(c: Cipher, h: Header) returns (pad: seq<byte>)
    ensures pad == Pad(c, h)
  {
    var padSize := h.length;
    var iv := FirstBlock(h, c.key);
    var hashed := c.hash(iv);
    pad := hashed;
    ghost var n := 0;
    while |pad| < padSize
      invariant |pad| == BLOCK * (n + 1)
      invariant hashed == ChainBlock(c, h, n)
      invariant forall i :: 0 <= i < |pad| ==> pad[i] == PadByte(c, h, i)
    {
      hashed := c.hash(iv + hashed);
      n := n + 1;
      BlockIndices(n);
      pad := pad + hashed;
    }
    pad := pad[..padSize];
  }

  lemma BlockIndices(n: nat)
    ensures forall i :: BLOCK * n <= i < BLOCK * (n + 1) ==> i / BLOCK == n && i % BLOCK == i - BLOCK * n
  {
  }

  /** The pad reads only the session id, the version, the sequence number and
      the length of a header, never its flags or its type. */
  lemma PadIgnoresFlagsAndType(c: Cipher, h: Header, g: Header)
    requires h.sessionId == g.sessionId && h.seqNo == g.seqNo && h.Version() == g.Version()
    requires h.length <= g.length
    ensures Pad(c, h) <= Pad(c, g)
    ensures h.length == g.length ==> Pad(c, h) == Pad(c, g)
  {
    forall i: nat | i < h.length
      ensures PadByte(c, h, i) == PadByte(c, g, i)
    {
      ChainIgnoresFlagsAndType(c, h, g, i / BLOCK);
    }
  }

  lemma {:induction false} ChainIgnoresFlagsAndType(c: Cipher, h: Header, g: Header, n: nat)
    requires h.sessionId == g.sessionId && h.seqNo == g.seqNo && h.Version() == g.Version()
    ensures ChainBlock(c, h, n) == ChainBlock(c, g, n)
  {
    if n > 0 {
      ChainIgnoresFlagsAndType(c, h, g, n - 1);
    }
  }

  /** The bytes that every digest of the pad covers, written out: the session
      id from its high byte down, the key, both versions in one byte, and the
      sequence number. */
  predicate Hashed(s: seq<byte>, h: Header, key: seq<byte>) {
    && |s| == 4 + |key| + 2
    && s[0] as int * 0x100_0000 + s[1] as int * 0x1_0000 + s[2] as int * 0x100 + s[3] == h.sessionId
    && s[4..4 + |key|] == key
    && s[|s| - 2] == (if h.minorVersion.MinorOne? then 0xc1 else 0xc0)
    && s[|s| - 1] == h.seqNo
  }

  lemma FirstBlockIsHashed(h: Header, key: seq<byte>)
    ensures Hashed(FirstBlock(h, key), h, key)
  {
    var s := FirstBlock(h, key);
    assert s[..4] == Be32(h.sessionId);
    assert s[4..4 + |key|] == key;
    Be32RoundTrip(h.sessionId);
  }

  /** The pad by its defining recurrence, the last block cut to size: every
      block is the digest of the hashed bytes followed by the block before it. */
  lemma PadStartsWithItsBlocks(c: Cipher, h: Header, hashed: seq<byte>, n: nat)
    requires Hashed(hashed, h, c.key) && 16 * n < h.length
    ensures |Pad(c, h)| == h.length
    ensures var digest := c.hash(hashed + if n == 0 then [] else Pad(c, h)[16 * (n - 1)..16 * n]);
            var end := if 16 * (n + 1) <= h.length then 16 * (n + 1) else h.length;
            |digest| == 16 && Pad(c, h)[16 * n..end] == digest[..end - 16 * n]
  {
    FirstBlockIsHashed(h, c.key);
    HashedIsUnique(hashed, FirstBlock(h, c.key), h, c.key);
    BlockIndices(n);
    var end := if 16 * (n + 1) <= h.length then 16 * (n + 1) else h.length;
    assert Pad(c, h)[16 * n..end] == ChainBlock(c, h, n)[..end - 16 * n];
    if n > 0 {
      BlockIndices(n - 1);
      assert Pad(c, h)[16 * (n - 1)..16 * n] == ChainBlock(c, h, n - 1);
    } else {
      assert hashed + [] == hashed;
    }
  }

  lemma HashedIsUnique(s: seq<byte>, t: seq<byte>, h: Header, key: seq<byte>)
    requires Hashed(s, h, key) && Hashed(t, h, key)
    ensures s == t
  {
    SameNumber(s[..4], t[..4]);
    assert s[..4] == t[..4];
    assert s == s[..4] + s[4..4 + |key|] + [s[|s| - 2], s[|s| - 1]];
    assert t == t[..4] + t[4..4 + |key|] + [t[|t| - 2], t[|t| - 1]];
  }

  function Min(a: nat, b: nat): nat {
    if a < b then a else b
  }

  /** Zip of two byte strings through exclusive-or; the shorter one wins. */
  function XorBytes(a: seq<byte>, b: seq<byte>): (r: seq<byte>)
    ensures |r| == Min(|a|, |b|)
  {
    seq(Min(|a|, |b|), i requires 0 <= i < Min(|a|, |b|) => Xor(a[i], b[i]))
  }

  /** `convert`: the copying form, silently cut to the length of the pad. */
  function Convert(c: Cipher, h: Header, data: seq<byte>): seq<byte> {
    XorBytes(data, Pad(c, h))
  }

  /** `convert_inplace`: indexes the pad for every byte of the body, so it
      panics (`ok` is false) as soon as the body outruns the pad. */
  method ConvertInPlace(c: Cipher, h: Header, data: array<byte>) returns (ok: bool)
    modifies data
    ensures ok <==> data.Length <= h.length
    ensures ok ==> data[..] == Convert(c, h, old(data[..]))
  {
    var pad := GeneratePad(c, h);
    for i := 0 to data.Length
      invariant i <= |pad|
      invariant forall k :: 0 <= k < i ==> data[k] == Xor(old(data[k]), pad[k])
      invariant forall k :: i <= k < data.Length ==> data[k] == old(data[k])
    {
      if i >= |pad| {
        return false;
      }
      data[i] := Xor(data[i], pad[i]);
    }
    ok := true;
  }

  /** Conversion is exclusive-or with the pad, bit by bit, as far as both
      reach. */
  lemma ConvertIsExclusiveOr(c: Cipher, h: Header, data: seq<byte>, i: nat, k: nat)
    requires i < |data| && i < h.length
    ensures |Convert(c, h, data)| == if |data| <= h.length then |data| else h.length
    ensures Bit(Convert(c, h, data)[i], k) <==> Bit(data[i], k) != Bit(Pad(c, h)[i], k)
  {
    XorBitByBit(data[i], Pad(c, h)[i], k);
  }

  /** Converting twice with the same pad restores every body that fits it. */
  lemma ConvertIsInvolution(c: Cipher, h: Header, data: seq<byte>)
    requires |data| <= h.length
    ensures Convert(c, h, Convert(c, h, data)) == data
  {
    var pad := Pad(c, h);
    forall i | 0 <= i < |data|
      ensures Xor(Xor(data[i], pad[i]), pad[i]) == data[i]
    {
      XorCancels(data[i], pad[i]);
    }
  }
}
