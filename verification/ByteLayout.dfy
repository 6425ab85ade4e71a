/**
 Where numbers and parts stand in a sequence of bytes: the positional value of
 big-endian fields, independent of how they are written.
 */
module ByteLayout {
  import opened Bytes

  function Big16(b: seq<byte>, at: nat): (v: nat)
    requires at + 2 <= |b|
  {
    256 * b[at] as int + b[at + 1] as int
  }

  function Big32(b: seq<byte>, at: nat): (v: nat)
    requires at + 4 <= |b|
  {
    0x100_0000 * b[at] as int + 0x1_0000 * b[at + 1] as int + 256 * b[at + 2] as int + b[at + 3] as int
  }

  function Big64(b: seq<byte>, at: nat): (v: nat)
    requires at + 8 <= |b|
  {
    0x1_0000_0000 * Big32(b, at) + Big32(b, at + 4)
  }

  /** The number fields are big-endian: the first byte counts most. */
  lemma U16IsBigEndian(v: nat)
    requires v < 0x1_0000
    ensures 256 * PutU16(v)[0] as int + PutU16(v)[1] as int == v
  {
  }

  lemma U32IsBigEndian(v: nat)
    requires v < 0x1_0000_0000
    ensures var b := PutU32(v);
      0x100_0000 * b[0] as int + 0x1_0000 * b[1] as int + 256 * b[2] as int + b[3] as int == v
  {
    U16IsBigEndian(v / 0x1_0000);
    U16IsBigEndian(v % 0x1_0000);
    hide PutU16;
  }

  lemma U64IsBigEndian(v: nat)
    requires v <= MAX_SAFE
    ensures Big64(PutU64(v), 0) == v
  {
    U32IsBigEndian(v / 0x1_0000_0000);
    U32IsBigEndian(v - v / 0x1_0000_0000 * 0x1_0000_0000);
    hide PutU32;
  }

  /** Negative numbers stand as their two's complement. */
  lemma I16IsTwosComplement(v: int)
    requires -0x8000 <= v < 0x8000
    ensures 256 * PutI16(v)[0] as int + PutI16(v)[1] as int == if v < 0 then v + 0x1_0000 else v
  {
  }

  // Parts

  predicate At(b: seq<byte>, at: nat, part: seq<byte>) {
    at + |part| <= |b| && b[at..at + |part|] == part
  }

  lemma Whole(b: seq<byte>)
    ensures At(b, 0, b)
  {
  }

  lemma Split(b: seq<byte>, at: nat, x: seq<byte>, y: seq<byte>)
    requires At(b, at, x + y)
    ensures At(b, at, x) && At(b, at + |x|, y)
  {
    var part := b[at..at + |x + y|];
    assert b[at..at + |x|] == part[..|x|] && b[at + |x|..at + |x| + |y|] == part[|x|..];
  }

  lemma ElementsAt(b: seq<byte>, at: nat, part: seq<byte>)
    requires At(b, at, part)
    ensures forall i :: 0 <= i < |part| ==> b[at + i] == part[i]
  {
    forall i | 0 <= i < |part|
      ensures b[at + i] == part[i]
    {
      assert b[at..at + |part|][i] == part[i];
    }
  }

  lemma U8At(b: seq<byte>, at: nat, v: nat)
    requires v < 0x100 && At(b, at, PutU8(v))
    ensures b[at] as int == v
  {
    ElementsAt(b, at, PutU8(v));
    assert b[at + 0] == PutU8(v)[0];
  }

  lemma U16At(b: seq<byte>, at: nat, v: nat)
    requires v < 0x1_0000 && At(b, at, PutU16(v))
    ensures Big16(b, at) == v
  {
    U16IsBigEndian(v);
    ElementsAt(b, at, PutU16(v));
    assert b[at + 0] == PutU16(v)[0] && b[at + 1] == PutU16(v)[1];
  }

  lemma I16At(b: seq<byte>, at: nat, v: int)
    requires -0x8000 <= v < 0x8000 && At(b, at, PutI16(v))
    ensures Big16(b, at) == if v < 0 then v + 0x1_0000 else v
  {
    U16At(b, at, if v < 0 then v + 0x1_0000 else v);
  }

  lemma U32At(b: seq<byte>, at: nat, v: nat)
    requires v < 0x1_0000_0000 && At(b, at, PutU32(v))
    ensures Big32(b, at) == v
  {
    U32IsBigEndian(v);
    hide PutU32;
    var part := PutU32(v);
    ElementsAt(b, at, part);
    assert b[at + 0] == part[0] && b[at + 1] == part[1] && b[at + 2] == part[2] && b[at + 3] == part[3];
  }

  lemma U64At(b: seq<byte>, at: nat, v: nat)
    requires v <= MAX_SAFE && At(b, at, PutU64(v))
    ensures Big64(b, at) == v
  {
    hide PutU32, Big32, At;
    var high := v / 0x1_0000_0000;
    Split(b, at, PutU32(high), PutU32(v - high * 0x1_0000_0000));
    U32At(b, at, high);
    U32At(b, at + 4, v - high * 0x1_0000_0000);
    Inside(b, at, PutU64(v));
  }

  lemma Inside(b: seq<byte>, at: nat, part: seq<byte>)
    requires At(b, at, part)
    ensures at + |part| <= |b|
  {
  }

  // Bytes that agree

  /** The two agree from `start` to `end`. */
  predicate Agree(b: seq<byte>, c: seq<byte>, start: nat, end: nat) {
    end <= |b| && end <= |c| && forall i :: start <= i < end ==> b[i] == c[i]
  }

  lemma AgreeOn(b: seq<byte>, c: seq<byte>, start: nat, middle: nat, end: nat)
    requires Agree(b, c, start, middle) && Agree(b, c, middle, end)
    ensures Agree(b, c, start, end)
  {
  }

  lemma AgreeWholly(b: seq<byte>, c: seq<byte>)
    requires |b| == |c| && Agree(b, c, 0, |b|)
    ensures b == c
  {
  }

  lemma PartsAgree(b: seq<byte>, c: seq<byte>, at: nat, part: seq<byte>)
    requires At(b, at, part) && At(c, at, part)
    ensures Agree(b, c, at, at + |part|)
  {
    ElementsAt(b, at, part);
    ElementsAt(c, at, part);
    forall i | at <= i < at + |part|
      ensures b[i] == c[i]
    {
      assert b[at + (i - at)] == part[i - at] && c[at + (i - at)] == part[i - at];
    }
  }

  lemma Agree8(b: seq<byte>, c: seq<byte>, at: nat)
    requires at + 1 <= |b| && at + 1 <= |c| && b[at] == c[at]
    ensures Agree(b, c, at, at + 1)
  {
  }

  lemma Agree16(b: seq<byte>, c: seq<byte>, at: nat)
    requires at + 2 <= |b| && at + 2 <= |c| && Big16(b, at) == Big16(c, at)
    ensures Agree(b, c, at, at + 2)
  {
  }

  lemma Halves(b: seq<byte>, at: nat)
    requires at + 4 <= |b|
    ensures Big32(b, at) == 0x1_0000 * Big16(b, at) + Big16(b, at + 2)
    ensures Big16(b, at + 2) < 0x1_0000 && Big32(b, at) < 0x1_0000_0000
  {
  }

  lemma Agree32(b: seq<byte>, c: seq<byte>, at: nat)
    requires at + 4 <= |b| && at + 4 <= |c| && Big32(b, at) == Big32(c, at)
    ensures Agree(b, c, at, at + 4)
  {
    Halves(b, at);
    Halves(c, at);
    hide Big16, Big32;
    Agree16(b, c, at);
    Agree16(b, c, at + 2);
  }

  lemma Agree64(b: seq<byte>, c: seq<byte>, at: nat)
    requires at + 8 <= |b| && at + 8 <= |c| && Big64(b, at) == Big64(c, at)
    ensures Agree(b, c, at, at + 8)
  {
    Halves(b, at + 4);
    Halves(c, at + 4);
    hide Big32;
    Agree32(b, c, at);
    Agree32(b, c, at + 4);
  }
}
