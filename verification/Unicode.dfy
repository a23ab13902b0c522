/** What a `String` can hold: UTF-8 by its definition, RFC 3629, as the
    encodings of Unicode scalar values, against the table the decoders use. */
module Unicode {
  import opened Primitives

  /** A code point that is not a surrogate. */
  predicate Scalar(v: int) {
    0 <= v < 0xd800 || 0xe000 <= v < 0x11_0000
  }

  /** The bits of the value, six at a time, behind a byte that tells how many
      bytes there are. */
  function Utf8(v: int): (s: seq<byte>)
    requires Scalar(v)
    ensures |s| > 0
  {
    if v < 0x80 then [v]
    else if v < 0x800 then [0xc0 + v / 0x40, 0x80 + v % 0x40]
    else if v < 0x1_0000 then [0xe0 + v / 0x1000, 0x80 + v / 0x40 % 0x40, 0x80 + v % 0x40]
    else [0xf0 + v / 0x4_0000, 0x80 + v / 0x1000 % 0x40, 0x80 + v / 0x40 % 0x40, 0x80 + v % 0x40]
  }

  predicate AllScalars(values: seq<int>) {
    forall i :: 0 <= i < |values| ==> Scalar(values[i])
  }

  function Written(values: seq<int>): seq<byte>
    requires AllScalars(values)
  {
    if values == [] then [] else Utf8(values[0]) + Written(values[1..])
  }

  /** The table accepts the encoding of a scalar value, with its width. */
  lemma EncodingIsAccepted(v: int, s: seq<byte>, i: nat)
    requires Scalar(v) && i + |Utf8(v)| <= |s| && s[i..i + |Utf8(v)|] == Utf8(v)
    ensures ScalarWidth(s, i) == |Utf8(v)|
  {
    var e := Utf8(v);
    assert forall k :: i <= k < i + |e| ==> s[k] == s[i..i + |e|][k - i];
    if |e| == 3 {
      ThreeDigits(v);
    } else if |e| == 4 {
      FourDigits(v);
    }
  }

  lemma ThreeDigits(v: int)
    requires 0x800 <= v < 0x1_0000
    ensures v / 0x1000 == 0 ==> v / 0x40 % 0x40 >= 0x20
    ensures v / 0x1000 == 0xd ==> (v / 0x40 % 0x40 < 0x20 <==> v < 0xd800)
  {
    assert v / 0x40 / 0x40 == v / 0x1000;
  }

  lemma FourDigits(v: int)
    requires 0x1_0000 <= v < 0x11_0000
    ensures v / 0x4_0000 == 0 ==> v / 0x1000 % 0x40 >= 0x10
    ensures v / 0x4_0000 == 4 ==> v / 0x1000 % 0x40 < 0x10
    ensures v / 0x4_0000 <= 4
  {
    assert v / 0x1000 / 0x40 == v / 0x4_0000;
  }

  /** What the table accepts is the encoding of a scalar value. */
  lemma AcceptedIsEncoding(s: seq<byte>, i: nat) returns (v: int)
    requires i < |s| && ScalarWidth(s, i) > 0
    ensures Scalar(v) && Utf8(v) == s[i..i + ScalarWidth(s, i)]
  {
    var w := ScalarWidth(s, i);
    if w == 1 {
      v := s[i];
    } else if w == 2 {
      v := FromTwo(s[i] - 0xc0, s[i + 1] - 0x80);
    } else if w == 3 {
      v := FromThree(s[i] - 0xe0, s[i + 1] - 0x80, s[i + 2] - 0x80);
    } else {
      v := FromFour(s[i] - 0xf0, s[i + 1] - 0x80, s[i + 2] - 0x80, s[i + 3] - 0x80);
    }
  }

  lemma FromTwo(a: int, b: int) returns (v: int)
    requires 2 <= a < 0x20 && 0 <= b < 0x40
    ensures Scalar(v) && Utf8(v) == [0xc0 + a, 0x80 + b]
  {
    v := a * 0x40 + b;
  }

  lemma FromThree(a: int, b: int, c: int) returns (v: int)
    requires 0 <= a < 0x10 && 0 <= b < 0x40 && 0 <= c < 0x40
    requires (a == 0 ==> b >= 0x20) && (a == 0xd ==> b < 0x20)
    ensures Scalar(v) && Utf8(v) == [0xe0 + a, 0x80 + b, 0x80 + c]
  {
    var x := a * 0x40 + b;
    v := x * 0x40 + c;
    assert v / 0x40 == x && v / 0x1000 == x / 0x40 == a;
  }

  lemma FromFour(a: int, b: int, c: int, d: int) returns (v: int)
    requires 0 <= a <= 4 && 0 <= b < 0x40 && 0 <= c < 0x40 && 0 <= d < 0x40
    requires (a == 0 ==> b >= 0x10) && (a == 4 ==> b < 0x10)
    ensures Scalar(v) && Utf8(v) == [0xf0 + a, 0x80 + b, 0x80 + c, 0x80 + d]
  {
    var x := a * 0x40 + b;
    var y := x * 0x40 + c;
    v := y * 0x40 + d;
    assert v / 0x40 == y && v / 0x1000 == y / 0x40 == x && v / 0x4_0000 == x / 0x40 == a;
  }

  lemma {:induction false} WrittenIsAccepted(s: seq<byte>, i: nat, values: seq<int>)
    requires i <= |s| && AllScalars(values) && s[i..] == Written(values)
    ensures ScalarsFrom(s, i)
    decreases |s| - i
  {
    hide Utf8, ScalarWidth;
    if i < |s| {
      var e := Utf8(values[0]);
      assert s[i..i + |e|] == s[i..][..|e|] == e;
      EncodingIsAccepted(values[0], s, i);
      assert s[i + |e|..] == s[i..][|e|..] == Written(values[1..]);
      WrittenIsAccepted(s, i + |e|, values[1..]);
    }
  }

  lemma {:induction false} AcceptedIsWritten(s: seq<byte>, i: nat) returns (values: seq<int>)
    requires i <= |s| && ScalarsFrom(s, i)
    ensures AllScalars(values) && Written(values) == s[i..]
    decreases |s| - i
  {
    hide Utf8, ScalarWidth;
    if i == |s| {
      values := [];
    } else {
      var v := AcceptedIsEncoding(s, i);
      var next := i + ScalarWidth(s, i);
      var rest := AcceptedIsWritten(s, next);
      values := [v] + rest;
      assert values[1..] == rest;
      assert s[i..] == s[i..next] + s[next..];
    }
  }

  /** A byte string is valid exactly when it is the encoding of some sequence
      of Unicode scalar values. */
  lemma TextIsScalars(s: seq<byte>)
    ensures Utf8Valid(s) <==> exists values :: AllScalars(values) && Written(values) == s
  {
    hide ScalarsFrom, Written;
    assert s[0..] == s;
    if Utf8Valid(s) {
      var values := AcceptedIsWritten(s, 0);
      assert AllScalars(values) && Written(values) == s;
    }
    if values :| AllScalars(values) && Written(values) == s {
      WrittenIsAccepted(s, 0, values);
    }
  }
}
