/** Machine integers, byte strings and the result types shared by every module.

    Bytes and words are bounded integers, so a truncating cast is written out
    as a remainder. */
module Primitives {

  type byte = x: int | 0 <= x < 0x100
  type u32 = x: int | 0 <= x < 0x1_0000_0000

  datatype Option<+T> = None | Some(value: T) {
    function OrError<E>(error: E): Result<T, E> {
      match this
      case Some(v) => Success(v)
      case None => Failure(error)
    }
  }

  datatype Result<+R, +E> = Success(value: R) | Failure(error: E) {
    predicate IsFailure() {
      Failure?
    }
    function PropagateFailure<U>(): Result<U, E>
      requires Failure?
    {
      Failure(error)
    }
    function Extract(): R
      requires Success?
    {
      value
    }
  }

  /** The outcome of code that may panic (an index out of range, an `unwrap`
      of an error): no value is produced and the owned data is dropped. */
  datatype Attempt<+T> = Panicked | Returned(value: T)

  /** Exclusive-or, bit by bit from the low end. */
  function XorBits(a: nat, b: nat): nat {
    if a == 0 && b == 0 then 0
    else (if a % 2 == b % 2 then 0 else 1) + 2 * XorBits(a / 2, b / 2)
  }

  lemma {:induction false} XorStaysBelow(a: nat, b: nat, n: nat)
    requires a < n && b < n && n in {1, 2, 4, 8, 16, 32, 64, 128, 256}
    ensures XorBits(a, b) < n
  {
    if n > 1 {
      XorStaysBelow(a / 2, b / 2, n / 2);
    }
  }

  lemma {:induction false} XorBitsCancel(a: nat, b: nat)
    ensures XorBits(XorBits(a, b), b) == a
  {
    if a != 0 || b != 0 {
      var x, y := XorBits(a, b), XorBits(a / 2, b / 2);
      assert x / 2 == y && (x % 2 == b % 2 <==> a % 2 == 0);
      XorBitsCancel(a / 2, b / 2);
    }
  }

  function Xor(a: byte, b: byte): byte {
    XorStaysBelow(a, b, 256);
    XorBits(a, b)
  }

  lemma XorCancels(a: byte, b: byte)
    ensures Xor(Xor(a, b), b) == a
  {
    XorBitsCancel(a, b);
  }

  /** Bit `k`, counting from the low end. */
  predicate Bit(n: nat, k: nat) {
    if k == 0 then n % 2 == 1 else Bit(n / 2, k - 1)
  }

  lemma {:induction false} NoBitsInZero(k: nat)
    ensures !Bit(0, k)
  {
    if k > 0 {
      NoBitsInZero(k - 1);
    }
  }

  /** A bit is set when it is set in exactly one of the two. */
  lemma {:induction false} XorBitByBit(a: nat, b: nat, k: nat)
    ensures Bit(XorBits(a, b), k) <==> Bit(a, k) != Bit(b, k)
  {
    if a == 0 && b == 0 {
      NoBitsInZero(k);
    } else {
      var x, y := XorBits(a, b), XorBits(a / 2, b / 2);
      assert x / 2 == y && (x % 2 == 1 <==> (a % 2 == 1) != (b % 2 == 1));
      if k > 0 {
        XorBitByBit(a / 2, b / 2, k - 1);
      }
    }
  }

  /** A big-endian 16-bit read. */
  function FromBe16(hi: byte, lo: byte): (n: nat)
    ensures n < 0x1_0000
  {
    var h: int := hi;
    h * 0x100 + lo
  }

  lemma Low16(n: nat)
    ensures FromBe16(n / 0x100 % 0x100, n % 0x100) == n % 0x1_0000
  {
  }

  lemma High16(hi: byte, lo: byte)
    ensures var n := FromBe16(hi, lo); n / 0x100 % 0x100 == hi && n % 0x100 == lo
  {
  }

  /** `u32::to_be_bytes`. */
  function Be32(n: u32): (s: seq<byte>)
    ensures |s| == 4
  {
    [n / 0x100_0000, n / 0x1_0000 % 0x100, n / 0x100 % 0x100, n % 0x100]
  }

  /** `u32::from_be_bytes`. */
  function FromBe32(a: byte, b: byte, c: byte, d: byte): u32 {
    ((a * 0x100 + b) * 0x100 + c) * 0x100 + d
  }

  lemma Be32RoundTrip(n: u32)
    ensures var s := Be32(n); FromBe32(s[0], s[1], s[2], s[3]) == n
  {
    var a, b, c := n / 0x100, n / 0x1_0000, n / 0x100_0000;
    assert n == a * 0x100 + n % 0x100;
    assert a == b * 0x100 + a % 0x100;
    assert b == c * 0x100 + b % 0x100;
  }

  lemma FromBe32RoundTrip(a: byte, b: byte, c: byte, d: byte)
    ensures Be32(FromBe32(a, b, c, d)) == [a, b, c, d]
  {
    var n := FromBe32(a, b, c, d);
    assert n / 0x100 == (a * 0x100 + b) * 0x100 + c;
    assert n / 0x1_0000 == a * 0x100 + b;
    assert n / 0x100_0000 == a;
  }

  // ---------- UTF-8 ----------

  predicate InRange(s: seq<byte>, i: nat, lo: int, hi: int) {
    i < |s| && lo <= s[i] <= hi
  }

  /** The width of the well-formed UTF-8 scalar at `i`, or 0 when there is none
      (Table 3-7 of the Unicode standard). */
  function ScalarWidth(s: seq<byte>, i: nat): (w: nat)
    ensures i <= |s| ==> i + w <= |s|
  {
    if InRange(s, i, 0x00, 0x7f) then 1
    else if InRange(s, i, 0xc2, 0xdf) && InRange(s, i + 1, 0x80, 0xbf) then 2
    else if && InRange(s, i + 2, 0x80, 0xbf)
            && (|| (s[i] == 0xe0 && 0xa0 <= s[i + 1] <= 0xbf)
                || (s[i] == 0xed && 0x80 <= s[i + 1] <= 0x9f)
                || (0xe1 <= s[i] <= 0xef && s[i] != 0xed && 0x80 <= s[i + 1] <= 0xbf)) then 3
    else if && InRange(s, i + 2, 0x80, 0xbf) && InRange(s, i + 3, 0x80, 0xbf)
            && (|| (s[i] == 0xf0 && 0x90 <= s[i + 1] <= 0xbf)
                || (s[i] == 0xf4 && 0x80 <= s[i + 1] <= 0x8f)
                || (0xf1 <= s[i] <= 0xf3 && 0x80 <= s[i + 1] <= 0xbf)) then 4
    else 0
  }

  predicate ScalarsFrom(s: seq<byte>, i: nat)
    requires i <= |s|
    decreases |s| - i
  {
    i == |s| || (ScalarWidth(s, i) > 0 && ScalarsFrom(s, i + ScalarWidth(s, i)))
  }

  predicate Utf8Valid(s: seq<byte>) {
    ScalarsFrom(s, 0)
  }

  /** A `String`: its bytes are always valid UTF-8. */
  type Text = s: seq<byte> | Utf8Valid(s) witness []

  lemma {:induction false} AsciiIsText(s: seq<byte>, i: nat)
    requires i <= |s| && forall k :: 0 <= k < |s| ==> s[k] < 0x80
    ensures ScalarsFrom(s, i)
    decreases |s| - i
  {
    if i < |s| {
      AsciiIsText(s, i + 1);
    }
  }
}
