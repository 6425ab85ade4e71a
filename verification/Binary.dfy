/** The cursor over a presized buffer that both encoders write through, and the one both decoders read through. */
module Binary {
  import opened Wrappers
  import opened Bytes

  class BinaryWriter {
    const bytes: array<byte>
    var offset: nat

    ghost predicate Valid()
      reads this
    {
      offset <= bytes.Length
    }

    ghost function Written(): (w: seq<byte>)
      requires Valid()
      reads this, bytes
      ensures |w| == offset
    {
      bytes[..offset]
    }

    ghost predicate Room(n: nat)
      reads this
    {
      offset + n <= bytes.Length
    }

    constructor (length: nat)
      ensures Valid() && fresh(bytes)
      ensures bytes.Length == length && Written() == []
    {
      bytes := new byte[length];
      offset := 0;
    }

    method Bytes(value: seq<byte>)
      requires Valid() && Room(|value|)
      modifies this, bytes
      ensures Valid() && Written() == old(Written()) + value
    {
      forall i | 0 <= i < |value| {
        bytes[offset + i] := value[i];
      }
      offset := offset + |value|;
    }

    method U8(value: nat)
      requires Valid() && Room(1) && value < 0x100
      modifies this, bytes
      ensures Valid() && Written() == old(Written()) + PutU8(value)
    {
      bytes[offset] := value;
      offset := offset + 1;
    }

    method U16(value: nat)
      requires Valid() && Room(2) && value < 0x1_0000
      modifies this, bytes
      ensures Valid() && Written() == old(Written()) + PutU16(value)
    {
      bytes[offset], bytes[offset + 1] := value / 0x100, value % 0x100;
      offset := offset + 2;
    }

    method I16(value: int)
      requires Valid() && Room(2) && -0x8000 <= value < 0x8000
      modifies this, bytes
      ensures Valid() && Written() == old(Written()) + PutI16(value)
    {
      U16(if value < 0 then value + 0x1_0000 else value);
    }

    method U32(value: nat)
      requires Valid() && Room(4) && value < U32_FACTOR
      modifies this, bytes
      ensures Valid() && Written() == old(Written()) + PutU32(value)
    {
      hide PutU16;
      U16(value / 0x1_0000);
      U16(value % 0x1_0000);
    }

    method U64(value: nat)
      requires Valid() && Room(8) && value <= MAX_SAFE
      modifies this, bytes
      ensures Valid() && Written() == old(Written()) + PutU64(value)
    {
      hide PutU32;
      var high := value / U32_FACTOR;
      U32(high);
      U32(value - high * U32_FACTOR);
    }

    /** `None` is the internal size mismatch. */
    method Finish() returns (r: Option<seq<byte>>)
      requires Valid()
      ensures r == if offset == bytes.Length then Some(Written()) else None
    {
      assert bytes[..bytes.Length] == bytes[..];
      r := if offset == bytes.Length then Some(bytes[..]) else None;
    }
  }

  class BinaryReader {
    const bytes: seq<byte>
    var offset: nat

    ghost predicate Valid()
      reads this
    {
      offset <= |bytes|
    }

    /** The bytes that have not been read. */
    ghost function Rest(): seq<byte>
      requires Valid()
      reads this
    {
      bytes[offset..]
    }

    constructor (bytes: seq<byte>)
      ensures Valid() && Rest() == bytes
      ensures this.bytes == bytes
    {
      this.bytes := bytes;
      offset := 0;
    }

    method Remaining() returns (n: nat)
      requires Valid()
      ensures n == |Rest()|
    {
      n := |bytes| - offset;
    }

    method Bytes(n: nat) returns (r: Option<seq<byte>>)
      requires Valid()
      modifies this
      ensures Valid()
      ensures match GetBytes(old(Rest()), n)
        case NoParse => r == None
        case Got(value, rest) => r == Some(value) && Rest() == rest
    {
      if n > |bytes| - offset {
        return None;
      }
      assert bytes[offset..][..n] == bytes[offset..offset + n];
      r := Some(bytes[offset..offset + n]);
      offset := offset + n;
    }

    method U8() returns (r: Option<nat>)
      requires Valid()
      modifies this
      ensures Valid()
      ensures match GetU8(old(Rest()))
        case NoParse => r == None
        case Got(value, rest) => r == Some(value) && Rest() == rest
    {
      if 1 > |bytes| - offset {
        return None;
      }
      r := Some(bytes[offset] as int);
      offset := offset + 1;
    }

    method U16() returns (r: Option<nat>)
      requires Valid()
      modifies this
      ensures Valid()
      ensures match GetU16(old(Rest()))
        case NoParse => r == None
        case Got(value, rest) => r == Some(value) && Rest() == rest
    {
      if 2 > |bytes| - offset {
        return None;
      }
      var high: int, low: int := bytes[offset], bytes[offset + 1];
      r := Some(high * 0x100 + low);
      offset := offset + 2;
    }

    method I16() returns (r: Option<int>)
      requires Valid()
      modifies this
      ensures Valid()
      ensures match GetI16(old(Rest()))
        case NoParse => r == None
        case Got(value, rest) => r == Some(value) && Rest() == rest
    {
      hide GetU16;
      var word :- U16();
      var v: int := word;
      r := Some(if v < 0x8000 then v else v - 0x1_0000);
    }

    method U32() returns (r: Option<nat>)
      requires Valid()
      modifies this
      ensures Valid()
      ensures match GetU32(old(Rest()))
        case NoParse => r == None
        case Got(value, rest) => r == Some(value) && Rest() == rest
    {
      hide GetU16;
      var high :- U16();
      var low :- U16();
      r := Some(high * 0x1_0000 + low);
    }

    method SafeU64() returns (r: Option<nat>)
      requires Valid()
      modifies this
      ensures Valid()
      ensures match GetU64(old(Rest()))
        case NoParse => r == None
        case Got(value, rest) => r == Some(value) && Rest() == rest
    {
      hide GetU32;
      var high :- U32();
      var low :- U32();
      if high > MAX_SAFE_HIGH_WORD {
        return None;
      }
      r := Some(high * U32_FACTOR + low);
    }
  }
}
