/**
 UTF-8 as section 3 of RFC 3629 defines it, over text that is a sequence of
 Unicode scalar values. `Decode` is the fatal decoder: it refuses overlong
 forms, surrogates and values above 10FFFF, so it accepts exactly the image of
 `Encode`.
 */
module Utf8 {
  import opened Wrappers
  import opened Bytes

  predicate IsScalar(n: int) {
    0 <= n < 0xD800 || 0xE000 <= n < 0x11_0000
  }

  /** The six low bits of `n`, marked as a continuation byte. */
  function Tail(n: nat): (b: byte) {
    0x80 + n % 0x40
  }

  function PutScalar(n: int): (b: seq<byte>)
    requires IsScalar(n)
    ensures 1 <= |b| <= 4
  {
    if n < 0x80 then [n]
    else if n < 0x800 then [0xC0 + n / 0x40, Tail(n)]
    else if n < 0x1_0000 then [0xE0 + n / 0x1000, Tail(n / 0x40), Tail(n)]
    else [0xF0 + n / 0x4_0000, Tail(n / 0x1000), Tail(n / 0x40), Tail(n)]
  }

  predicate Continues(b: byte) {
    0x80 <= b < 0xC0
  }

  /** The bits of a scalar value, in the four forms of the table in section 3 of RFC 3629. */
  lemma ScalarForm(n: int)
    requires IsScalar(n)
    ensures var b := PutScalar(n);
      if n < 0x80 then b == [n]
      else if n < 0x800 then
        |b| == 2 && 0xC0 <= b[0] < 0xE0 && Continues(b[1]) && n == 0x40 * (b[0] as int - 0xC0) + (b[1] as int - 0x80)
      else if n < 0x1_0000 then
        && |b| == 3 && 0xE0 <= b[0] < 0xF0 && Continues(b[1]) && Continues(b[2])
        && n == 0x1000 * (b[0] as int - 0xE0) + 0x40 * (b[1] as int - 0x80) + (b[2] as int - 0x80)
      else
        && |b| == 4 && 0xF0 <= b[0] < 0xF8 && Continues(b[1]) && Continues(b[2]) && Continues(b[3])
        && n == 0x4_0000 * (b[0] as int - 0xF0) + 0x1000 * (b[1] as int - 0x80) + 0x40 * (b[2] as int - 0x80)
          + (b[3] as int - 0x80)
  {
    if 0 <= n {
      SixBits(n);
      SixBits(n / 0x40);
      SixBits(n / 0x40 / 0x40);
      hide Tail;
    }
  }

  lemma SixBits(n: nat)
    ensures Continues(Tail(n)) && n == 0x40 * (n / 0x40) + (Tail(n) as int - 0x80)
    ensures n / 0x40 / 0x40 == n / 0x1000 && n / 0x40 / 0x40 / 0x40 == n / 0x4_0000
  {
  }

  /** Appends one continuation byte to the bits read so far. */
  function GetTail(high: nat, b: seq<byte>): (r: Parsed<nat>)
    ensures r.Got? ==> r.value / 0x40 == high && b == [Tail(r.value)] + r.rest
  {
    if |b| == 0 || !(0x80 <= b[0] < 0xC0) then NoParse
    else Got(high * 0x40 + (b[0] as int - 0x80), b[1..])
  }

  /** Reads one scalar value; a form longer than its scalar needs is refused. */
  function GetScalar(b: seq<byte>): (r: Parsed<int>)
    ensures r.Got? ==> IsScalar(r.value) && b == PutScalar(r.value) + r.rest
  {
    if |b| == 0 then NoParse
    else
      var b0: int := b[0];
      if b0 < 0x80 then Got(b0, b[1..])
      else if b0 < 0xC0 then NoParse
      else if b0 < 0xE0 then
        var (n, s) :- GetTail(b0 - 0xC0, b[1..]);
        if n < 0x80 then NoParse else Got(n, s)
      else if b0 < 0xF0 then
        var (n1, s1) :- GetTail(b0 - 0xE0, b[1..]);
        var (n, s) :- GetTail(n1, s1);
        if n < 0x800 || !IsScalar(n) then NoParse
        else
          assert b == [b0] + ([Tail(n1)] + ([Tail(n)] + s));
          assert n / 0x1000 == n1 / 0x40;
          Got(n, s)
      else if b0 < 0xF8 then
        var (n1, s1) :- GetTail(b0 - 0xF0, b[1..]);
        var (n2, s2) :- GetTail(n1, s1);
        var (n, s) :- GetTail(n2, s2);
        if n < 0x1_0000 || !IsScalar(n) then NoParse
        else
          assert b == [b0] + ([Tail(n1)] + ([Tail(n2)] + ([Tail(n)] + s)));
          assert n / 0x1000 == n1 && n / 0x4_0000 == n1 / 0x40;
          Got(n, s)
      else NoParse
  }

  lemma ScalarInverse(n: int, s: seq<byte>)
    requires IsScalar(n)
    ensures GetScalar(PutScalar(n) + s) == Got(n, s)
  {
    var b := PutScalar(n) + s;
    if n < 0x80 {
      assert b[1..] == s;
    } else if n < 0x800 {
      assert b[1..] == [Tail(n)] + s;
    } else if n < 0x1_0000 {
      assert b[1..] == [Tail(n / 0x40)] + ([Tail(n)] + s);
      assert n / 0x1000 == n / 0x40 / 0x40;
    } else {
      assert b[1..] == [Tail(n / 0x1000)] + ([Tail(n / 0x40)] + ([Tail(n)] + s));
      assert n / 0x4_0000 == n / 0x1000 / 0x40 && n / 0x1000 == n / 0x40 / 0x40;
    }
  }

  function Encode(s: string): (b: seq<byte>) {
    if s == "" then [] else PutScalar(s[0] as int) + Encode(s[1..])
  }

  function Decode(b: seq<byte>): (r: Option<string>)
    ensures r.Some? ==> b == Encode(r.value)
    decreases |b|
  {
    if b == [] then Some("")
    else
      match GetScalar(b)
      case NoParse => None
      case Got(n, rest) =>
        assert |b| == |PutScalar(n)| + |rest|;
        var s :- Decode(rest);
        assert ([n as char] + s)[1..] == s;
        Some([n as char] + s)
  }

  lemma {:induction false} DecodeEncode(s: string)
    ensures Decode(Encode(s)) == Some(s)
  {
    if s != "" {
      ScalarInverse(s[0] as int, Encode(s[1..]));
      DecodeEncode(s[1..]);
      assert [s[0]] + s[1..] == s;
    }
  }

  /** Two texts with the same bytes are the same text. */
  lemma EncodeInjective(s: string, t: string)
    requires Encode(s) == Encode(t)
    ensures s == t
  {
    DecodeEncode(s);
    DecodeEncode(t);
  }

  lemma {:induction false} EncodeAppend(s: string, t: string)
    ensures Encode(s + t) == Encode(s) + Encode(t)
  {
    if s == "" {
      assert s + t == t;
    } else {
      assert (s + t)[1..] == s[1..] + t;
      EncodeAppend(s[1..], t);
    }
  }

  /** The bytes of a text are those of its scalar values, one after the other. */
  lemma EncodeSnoc(s: string, c: char)
    ensures Encode(s + [c]) == Encode(s) + PutScalar(c as int)
  {
    EncodeAppend(s, [c]);
    assert [c][1..] == "";
  }

  /** JavaScript's string length: scalars beyond FFFF take two code units. */
  function Utf16Length(s: string): nat {
    if s == "" then 0 else (if s[0] as int < 0x1_0000 then 1 else 2) + Utf16Length(s[1..])
  }

  /**
   UTF-8 is never shorter than the UTF-16 length, so refusing a text by its
   UTF-16 length before encoding refuses no text whose bytes would fit.
   */
  lemma {:induction false} Utf16NeverLonger(s: string)
    ensures Utf16Length(s) <= |Encode(s)| <= 3 * Utf16Length(s)
  {
    if s != "" {
      Utf16NeverLonger(s[1..]);
    }
  }
}
