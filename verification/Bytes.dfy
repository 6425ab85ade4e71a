/**
 Big-endian unsigned and signed numbers as the two binary envelopes lay them
 out. Every `Put` has a `Get` that inverts it in front of any further bytes,
 and a `Get` accepts nothing but the image of its `Put`.
 */
module Bytes {

  type byte = x: int | 0 <= x < 256

  datatype Parsed<+T> = NoParse | Got(value: T, rest: seq<byte>) {
    predicate IsFailure() {
      NoParse?
    }

    function PropagateFailure<U>(): Parsed<U>
      requires NoParse?
    {
      NoParse
    }

    function Extract(): (T, seq<byte>)
      requires Got?
    {
      (value, rest)
    }
  }

  const MAX_SAFE: nat := 0x1F_FFFF_FFFF_FFFF
  const U32_FACTOR: nat := 0x1_0000_0000
  const MAX_SAFE_HIGH_WORD: nat := 0x1F_FFFF

  function PutU8(v: nat): (b: seq<byte>)
    requires v < 0x100
    ensures |b| == 1
  {
    [v]
  }

  function PutU16(v: nat): (b: seq<byte>)
    requires v < 0x1_0000
    ensures |b| == 2
  {
    [v / 0x100, v % 0x100]
  }

  function PutI16(v: int): (b: seq<byte>)
    requires -0x8000 <= v < 0x8000
    ensures |b| == 2
  {
    PutU16(if v < 0 then v + 0x1_0000 else v)
  }

  function PutU32(v: nat): (b: seq<byte>)
    requires v < U32_FACTOR
    ensures |b| == 4
  {
    PutU16(v / 0x1_0000) + PutU16(v % 0x1_0000)
  }

  /** A 64-bit field carries a safe integer as two 32-bit words. */
  function PutU64(v: nat): (b: seq<byte>)
    requires v <= MAX_SAFE
    ensures |b| == 8
  {
    var high := v / U32_FACTOR;
    PutU32(high) + PutU32(v - high * U32_FACTOR)
  }

  lemma JoinWords16(high: nat, low: nat)
    requires low < 0x1_0000
    ensures (high * 0x1_0000 + low) / 0x1_0000 == high && (high * 0x1_0000 + low) % 0x1_0000 == low
  {
  }

  lemma JoinWords32(high: nat, low: nat)
    requires low < U32_FACTOR
    ensures (high * U32_FACTOR + low) / U32_FACTOR == high
  {
  }

  function GetBytes(b: seq<byte>, n: nat): (r: Parsed<seq<byte>>)
    ensures r.Got? <==> n <= |b|
    ensures r.Got? ==> |r.value| == n && b == r.value + r.rest
  {
    if n <= |b| then Got(b[..n], b[n..]) else NoParse
  }

  function GetU8(b: seq<byte>): (r: Parsed<nat>)
    ensures r.Got? <==> |b| >= 1
    ensures r.Got? ==> r.value < 0x100 && b == PutU8(r.value) + r.rest
  {
    if |b| < 1 then NoParse else Got(b[0], b[1..])
  }

  function GetU16(b: seq<byte>): (r: Parsed<nat>)
    ensures r.Got? <==> |b| >= 2
    ensures r.Got? ==> r.value < 0x1_0000 && b == PutU16(r.value) + r.rest
  {
    if |b| < 2 then NoParse else Got(b[0] as int * 0x100 + b[1] as int, b[2..])
  }

  function GetI16(b: seq<byte>): (r: Parsed<int>)
    ensures r.Got? <==> |b| >= 2
    ensures r.Got? ==> -0x8000 <= r.value < 0x8000 && b == PutI16(r.value) + r.rest
  {
    var (v, rest) :- GetU16(b);
    Got(if v < 0x8000 then v else v - 0x1_0000, rest)
  }

  function GetU32(b: seq<byte>): (r: Parsed<nat>)
    ensures r.Got? <==> |b| >= 4
    ensures r.Got? ==> r.value < U32_FACTOR && b == PutU32(r.value) + r.rest
  {
    hide PutU16;
    hide GetU16;
    var (high, b1) :- GetU16(b);
    var (low, b2) :- GetU16(b1);
    JoinWords16(high, low);
    assert PutU16(high) + (PutU16(low) + b2) == (PutU16(high) + PutU16(low)) + b2;
    Got(high * 0x1_0000 + low, b2)
  }

  function GetU64(b: seq<byte>): (r: Parsed<nat>)
    ensures r.Got? ==> r.value <= MAX_SAFE && b == PutU64(r.value) + r.rest
  {
    hide PutU32;
    hide GetU32;
    var (high, b1) :- GetU32(b);
    var (low, b2) :- GetU32(b1);
    if high > MAX_SAFE_HIGH_WORD then NoParse
    else
      JoinWords32(high, low);
      assert PutU32(high) + (PutU32(low) + b2) == (PutU32(high) + PutU32(low)) + b2;
      Got(high * U32_FACTOR + low, b2)
  }

  lemma U8Inverse(v: nat, s: seq<byte>)
    requires v < 0x100
    ensures GetU8(PutU8(v) + s) == Got(v, s)
  {
  }

  lemma U16Inverse(v: nat, s: seq<byte>)
    requires v < 0x1_0000
    ensures GetU16(PutU16(v) + s) == Got(v, s)
  {
  }

  lemma I16Inverse(v: int, s: seq<byte>)
    requires -0x8000 <= v < 0x8000
    ensures GetI16(PutI16(v) + s) == Got(v, s)
  {
  }

  lemma U32Inverse(v: nat, s: seq<byte>)
    requires v < U32_FACTOR
    ensures GetU32(PutU32(v) + s) == Got(v, s)
  {
    hide PutU16;
    hide GetU16;
    var high, low := PutU16(v / 0x1_0000), PutU16(v % 0x1_0000);
    assert (high + low) + s == high + (low + s);
    U16Inverse(v / 0x1_0000, low + s);
    U16Inverse(v % 0x1_0000, s);
  }

  /** Splitting a safe integer over 2^32 and joining the words again is the identity. */
  lemma U64Inverse(v: nat, s: seq<byte>)
    requires v <= MAX_SAFE
    ensures GetU64(PutU64(v) + s) == Got(v, s)
  {
    hide PutU32;
    hide GetU32;
    var h := v / U32_FACTOR;
    var high, low := PutU32(h), PutU32(v - h * U32_FACTOR);
    assert (high + low) + s == high + (low + s);
    U32Inverse(h, low + s);
    U32Inverse(v - h * U32_FACTOR, s);
  }
}
