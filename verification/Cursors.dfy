/** A read position over a byte slice, with the reads the body decoders use. */
module Cursors {
  import opened Primitives

  /** Why a string could not be read; the two are reported differently. */
  datatype StringError = NotEnoughData | NotUtf8

  /** The string of `len` bytes that starts at `from`. */
  function Field(data: seq<byte>, from: nat, len: nat): Result<Text, StringError> {
    if |data| < from + len then Failure(NotEnoughData)
    else if !Utf8Valid(data[from..from + len]) then Failure(NotUtf8)
    else Success(data[from..from + len])
  }

  class Cursor {
    const data: seq<byte>
    var position: nat

    ghost predicate Valid()
      reads this
    {
      position <= |data|
    }

    constructor (data: seq<byte>)
      ensures Valid() && this.data == data && position == 0
    {
      this.data := data;
      position := 0;
    }

    method ReadU8() returns (r: Option<byte>)
      requires Valid()
      modifies this
      ensures Valid()
      ensures old(position) < |data| ==> r == Some(data[old(position)]) && position == old(position) + 1
      ensures old(position) == |data| ==> r == None && position == old(position)
    {
      if position == |data| {
        return None;
      }
      r := Some(data[position]);
      position := position + 1;
    }

    /** `read_u16::<BigEndian>`. */
    method ReadU16() returns (r: Option<nat>)
      requires Valid()
      modifies this
      ensures Valid()
      ensures old(position) + 2 <= |data| ==>
                && r == Some(FromBe16(data[old(position)], data[old(position) + 1]))
                && position == old(position) + 2
      ensures old(position) + 2 > |data| ==> r == None
    {
      if |data| - position < 2 {
        position := |data|;
        return None;
      }
      r := Some(FromBe16(data[position], data[position + 1]));
      position := position + 2;
    }

    /** `read_string`: the length is checked before anything is consumed, the
        encoding afterwards. */
    method ReadString(len: nat) returns (r: Result<Text, StringError>)
      requires Valid()
      modifies this
      ensures Valid()
      ensures r == Field(data, old(position), len)
      ensures position == if old(position) + len <= |data| then old(position) + len else old(position)
    {
      var remaining := |data| - position;
      if remaining < len {
        return Failure(NotEnoughData);
      }
      var buffer := data[position..position + len];
      position := position + len;
      if !Utf8Valid(buffer) {
        return Failure(NotUtf8);
      }
      r := Success(buffer);
    }
  }
}
