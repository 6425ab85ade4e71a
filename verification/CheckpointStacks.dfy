/** The variable parts of a checkpoint on the wire: memory, stacks, call frames and output streams. */
module CheckpointStacks {
  import opened Bytes
  import opened CheckpointFormat
  import opened CheckpointWire

  // Words

  function PutWords(ws: seq<int>): (b: seq<byte>)
    requires ValidWords(ws)
    ensures |b| == 2 * |ws|
  {
    if ws == [] then [] else PutI16(ws[0]) + PutWords(ws[1..])
  }

  function GetWords(b: seq<byte>, n: nat): (r: Parsed<seq<int>>)
    decreases n
  {
    if n == 0 then Got([], b)
    else
      var (w, b1) :- GetI16(b);
      var (ws, b2) :- GetWords(b1, n - 1);
      Got([w] + ws, b2)
  }

  lemma {:induction false} WordsSound(b: seq<byte>, n: nat)
    requires GetWords(b, n).Got?
    ensures var r := GetWords(b, n); |r.value| == n && ValidWords(r.value) && b == PutWords(r.value) + r.rest
    decreases n
  {
    hide GetI16, PutI16;
    if n > 0 {
      var Got(w, b1) := GetI16(b);
      WordsSound(b1, n - 1);
      var Got(ws, rest) := GetWords(b1, n - 1);
      assert ([w] + ws)[1..] == ws;
      assert PutI16(w) + (PutWords(ws) + rest) == (PutI16(w) + PutWords(ws)) + rest;
    } else {
      assert [] + b == b;
    }
  }

  lemma {:induction false} WordsInverse(ws: seq<int>, s: seq<byte>)
    requires ValidWords(ws)
    ensures GetWords(PutWords(ws) + s, |ws|) == Got(ws, s)
    decreases |ws|
  {
    hide GetI16, PutI16;
    if ws != [] {
      var t := PutWords(ws[1..]) + s;
      assert PutWords(ws) + s == PutI16(ws[0]) + t;
      I16Inverse(ws[0], t);
      WordsInverse(ws[1..], s);
      assert [ws[0]] + ws[1..] == ws;
    } else {
      assert [] + s == s;
    }
  }

  /** A counted stack. */
  function PutStack(ws: seq<int>): (b: seq<byte>)
    requires ValidWords(ws) && |ws| <= MAX_STACK_WORDS
    ensures |b| == 4 + 2 * |ws|
  {
    PutU32(|ws|) + PutWords(ws)
  }

  function GetStack(b: seq<byte>): (r: Parsed<seq<int>>) {
    var (n, b1) :- GetU32(b);
    if n > MAX_STACK_WORDS then NoParse else GetWords(b1, n)
  }

  lemma StackSound(b: seq<byte>)
    requires GetStack(b).Got?
    ensures var r := GetStack(b);
      |r.value| <= MAX_STACK_WORDS && ValidWords(r.value) && b == PutStack(r.value) + r.rest
  {
    hide PutU32, GetU32, PutWords, GetWords, ValidWords;
    var Got(n, b1) := GetU32(b);
    WordsSound(b1, n);
    var Got(ws, rest) := GetWords(b1, n);
    assert PutU32(n) + (PutWords(ws) + rest) == (PutU32(n) + PutWords(ws)) + rest;
  }

  lemma StackInverse(ws: seq<int>, s: seq<byte>)
    requires ValidWords(ws) && |ws| <= MAX_STACK_WORDS
    ensures GetStack(PutStack(ws) + s) == Got(ws, s)
  {
    hide PutU32, GetU32, PutWords, GetWords, ValidWords;
    assert PutStack(ws) + s == PutU32(|ws|) + (PutWords(ws) + s);
    U32Inverse(|ws|, PutWords(ws) + s);
    WordsInverse(ws, s);
  }

  // Memory

  function PutMemory(memory: seq<byte>): (b: seq<byte>)
    requires |memory| <= U16_MAX
    ensures |b| == 4 + |memory|
  {
    PutU32(|memory|) + memory
  }

  function GetMemory(b: seq<byte>, expected: nat): (r: Parsed<seq<byte>>) {
    var (n, b1) :- GetU32(b);
    if n != expected || n > MAX_TOTAL_BYTES then NoParse else GetBytes(b1, n)
  }

  lemma MemorySound(b: seq<byte>, expected: nat)
    requires expected <= U16_MAX && GetMemory(b, expected).Got?
    ensures var r := GetMemory(b, expected); |r.value| == expected && b == PutMemory(r.value) + r.rest
  {
    hide PutU32, GetU32;
    var Got(n, b1) := GetU32(b);
    var Got(memory, rest) := GetBytes(b1, n);
    assert PutU32(n) + (memory + rest) == (PutU32(n) + memory) + rest;
  }

  lemma MemoryInverse(memory: seq<byte>, s: seq<byte>)
    requires |memory| <= U16_MAX
    ensures GetMemory(PutMemory(memory) + s, |memory|) == Got(memory, s)
  {
    hide PutU32, GetU32;
    assert PutMemory(memory) + s == PutU32(|memory|) + (memory + s);
    U32Inverse(|memory|, memory + s);
  }

  // Call frames

  datatype FrameHead = FrameHead(pc: nat, localCount: nat, discardResult: bool, argCount: nat, stackCount: nat)
  {
    predicate Fits() {
      pc <= U32_MAX && localCount < 0x100 && argCount < 0x100 && stackCount <= U32_MAX
    }

    /** `used` words are on other stacks already. */
    predicate Allowed(byteLength: nat, used: nat) {
      && pc < byteLength && localCount <= MAX_LOCALS && argCount <= 7 && stackCount <= MAX_FRAME_STACK_WORDS
      && used + localCount + stackCount <= MAX_STACK_WORDS
    }
  }

  function PutFrameHead(h: FrameHead): (b: seq<byte>)
    requires h.Fits()
    ensures |b| == 12
  {
    PutU32(h.pc) + (PutU8(h.localCount) + (PutFlag(h.discardResult) + (PutU8(h.argCount) + (PutU8(0) + PutU32(h.stackCount)))))
  }

  function GetFrameHead(b: seq<byte>): (r: Parsed<FrameHead>) {
    var (pc, b1) :- GetU32(b);
    var (localCount, b2) :- GetU8(b1);
    var (discardResult, b3) :- GetFlag(b2);
    var (argCount, b4) :- GetU8(b3);
    var (reserved, b5) :- GetU8(b4);
    var (stackCount, b6) :- GetU32(b5);
    if reserved != 0 then NoParse else Got(FrameHead(pc, localCount, discardResult, argCount, stackCount), b6)
  }

  lemma FrameHeadTail(h: FrameHead, s: seq<byte>)
    requires h.Fits()
    ensures PutFrameHead(h) + s ==
      PutU32(h.pc) + (PutU8(h.localCount) + (PutFlag(h.discardResult)
        + (PutU8(h.argCount) + (PutU8(0) + (PutU32(h.stackCount) + s)))))
  {
    hide PutU32, PutU8, PutFlag;
    var x := PutU8(0) + PutU32(h.stackCount);
    assert x + s == PutU8(0) + (PutU32(h.stackCount) + s);
    var y := PutU8(h.argCount) + x;
    assert y + s == PutU8(h.argCount) + (x + s);
  }

  lemma FrameHeadSound(b: seq<byte>)
    requires GetFrameHead(b).Got?
    ensures var r := GetFrameHead(b); r.value.Fits() && b == PutFrameHead(r.value) + r.rest
  {
    hide PutU8, GetU8, PutU32, GetU32, PutFlag, GetFlag, PutFrameHead;
    var Got(h, rest) := GetFrameHead(b);
    FrameHeadTail(h, rest);
  }

  lemma FrameHeadInverse(h: FrameHead, s: seq<byte>)
    requires h.Fits()
    ensures GetFrameHead(PutFrameHead(h) + s) == Got(h, s)
  {
    hide PutU8, GetU8, PutU32, GetU32, PutFlag, GetFlag, PutFrameHead;
    FrameHeadTail(h, s);
    var t5 := PutU32(h.stackCount) + s;
    var t4 := PutU8(0) + t5;
    var t3 := PutU8(h.argCount) + t4;
    var t2 := PutFlag(h.discardResult) + t3;
    var t1 := PutU8(h.localCount) + t2;
    U32Inverse(h.pc, t1);
    U8Inverse(h.localCount, t2);
    FlagInverse(h.discardResult, t3);
    U8Inverse(h.argCount, t4);
    U8Inverse(0, t5);
    U32Inverse(h.stackCount, s);
  }

  function HeadOf(f: Frame): FrameHead {
    FrameHead(f.pc, |f.locals|, f.discardResult, f.argCount, |f.ds|)
  }

  function PutFrame(f: Frame, byteLength: nat): (b: seq<byte>)
    requires ValidFrame(f, byteLength) && byteLength <= U32_MAX
    ensures |b| == FrameBytes(f)
  {
    PutFrameHead(HeadOf(f)) + (PutWords(f.locals) + PutWords(f.ds))
  }

  function GetFrame(b: seq<byte>, byteLength: nat, used: nat): (r: Parsed<Frame>) {
    var (h, b1) :- GetFrameHead(b);
    if !h.Allowed(byteLength, used) then NoParse
    else
      var (locals, b2) :- GetWords(b1, h.localCount);
      var (ds, b3) :- GetWords(b2, h.stackCount);
      Got(Frame(h.pc, locals, ds, h.discardResult, h.argCount), b3)
  }

  lemma FrameSound(b: seq<byte>, byteLength: nat, used: nat)
    requires GetFrame(b, byteLength, used).Got? && byteLength <= U32_MAX
    ensures var r := GetFrame(b, byteLength, used);
      && ValidFrame(r.value, byteLength) && used + |r.value.locals| + |r.value.ds| <= MAX_STACK_WORDS
      && b == PutFrame(r.value, byteLength) + r.rest
  {
    hide PutFrameHead, GetFrameHead, PutWords, GetWords, ValidWords;
    FrameHeadSound(b);
    var Got(h, b1) := GetFrameHead(b);
    WordsSound(b1, h.localCount);
    var Got(locals, b2) := GetWords(b1, h.localCount);
    WordsSound(b2, h.stackCount);
    var Got(ds, b3) := GetWords(b2, h.stackCount);
    var x, y, z := PutFrameHead(h), PutWords(locals), PutWords(ds);
    assert x + (y + (z + b3)) == (x + (y + z)) + b3;
  }

  lemma FrameInverse(f: Frame, byteLength: nat, used: nat, s: seq<byte>)
    requires ValidFrame(f, byteLength) && byteLength <= U32_MAX && used + |f.locals| + |f.ds| <= MAX_STACK_WORDS
    ensures GetFrame(PutFrame(f, byteLength) + s, byteLength, used) == Got(f, s)
  {
    hide PutFrameHead, GetFrameHead, PutWords, GetWords, ValidWords;
    var t2 := PutWords(f.ds) + s;
    var t1 := PutWords(f.locals) + t2;
    assert PutFrame(f, byteLength) + s == PutFrameHead(HeadOf(f)) + t1;
    FrameHeadInverse(HeadOf(f), t1);
    WordsInverse(f.locals, t2);
    WordsInverse(f.ds, s);
  }

  function PutFrames(fs: seq<Frame>, byteLength: nat): (b: seq<byte>)
    requires ValidFrames(fs, byteLength) && byteLength <= U32_MAX
    ensures |b| == FramesBytes(fs)
  {
    if fs == [] then [] else PutFrame(fs[0], byteLength) + PutFrames(fs[1..], byteLength)
  }

  function GetFrames(b: seq<byte>, n: nat, byteLength: nat, used: nat): (r: Parsed<seq<Frame>>)
    decreases n
  {
    if n == 0 then Got([], b)
    else
      var (f, b1) :- GetFrame(b, byteLength, used);
      var (fs, b2) :- GetFrames(b1, n - 1, byteLength, used + |f.locals| + |f.ds|);
      Got([f] + fs, b2)
  }

  lemma {:induction false} FramesSound(b: seq<byte>, n: nat, byteLength: nat, used: nat)
    requires GetFrames(b, n, byteLength, used).Got? && byteLength <= U32_MAX && used <= MAX_STACK_WORDS
    ensures var r := GetFrames(b, n, byteLength, used);
      && |r.value| == n && ValidFrames(r.value, byteLength) && used + FrameWords(r.value) <= MAX_STACK_WORDS
      && b == PutFrames(r.value, byteLength) + r.rest
    decreases n
  {
    hide GetFrame, PutFrame, ValidFrame;
    if n > 0 {
      FrameSound(b, byteLength, used);
      var Got(f, b1) := GetFrame(b, byteLength, used);
      var used1 := used + |f.locals| + |f.ds|;
      FramesSound(b1, n - 1, byteLength, used1);
      var Got(fs, rest) := GetFrames(b1, n - 1, byteLength, used1);
      assert ([f] + fs)[1..] == fs;
      assert PutFrame(f, byteLength) + (PutFrames(fs, byteLength) + rest) ==
        (PutFrame(f, byteLength) + PutFrames(fs, byteLength)) + rest;
    } else {
      assert [] + b == b;
    }
  }

  lemma {:induction false} FramesInverse(fs: seq<Frame>, byteLength: nat, used: nat, s: seq<byte>)
    requires ValidFrames(fs, byteLength) && byteLength <= U32_MAX && used + FrameWords(fs) <= MAX_STACK_WORDS
    ensures GetFrames(PutFrames(fs, byteLength) + s, |fs|, byteLength, used) == Got(fs, s)
    decreases |fs|
  {
    hide GetFrame, PutFrame, ValidFrame;
    if fs != [] {
      var t := PutFrames(fs[1..], byteLength) + s;
      assert PutFrames(fs, byteLength) + s == PutFrame(fs[0], byteLength) + t;
      FrameInverse(fs[0], byteLength, used, t);
      FramesInverse(fs[1..], byteLength, used + |fs[0].locals| + |fs[0].ds|, s);
      assert [fs[0]] + fs[1..] == fs;
    } else {
      assert [] + s == s;
    }
  }

  /** The counted call stack; `used` words are on the data stack. */
  function PutCallStack(fs: seq<Frame>, byteLength: nat): (b: seq<byte>)
    requires ValidFrames(fs, byteLength) && byteLength <= U32_MAX && |fs| <= MAX_CALL_FRAMES
    ensures |b| == 4 + FramesBytes(fs)
  {
    PutU32(|fs|) + PutFrames(fs, byteLength)
  }

  function GetCallStack(b: seq<byte>, byteLength: nat, used: nat): (r: Parsed<seq<Frame>>) {
    var (n, b1) :- GetU32(b);
    if n > MAX_CALL_FRAMES then NoParse else GetFrames(b1, n, byteLength, used)
  }

  lemma CallStackSound(b: seq<byte>, byteLength: nat, used: nat)
    requires GetCallStack(b, byteLength, used).Got? && byteLength <= U32_MAX && used <= MAX_STACK_WORDS
    ensures var r := GetCallStack(b, byteLength, used);
      && |r.value| <= MAX_CALL_FRAMES && ValidFrames(r.value, byteLength)
      && used + FrameWords(r.value) <= MAX_STACK_WORDS
      && b == PutCallStack(r.value, byteLength) + r.rest
  {
    hide PutU32, GetU32, PutFrames, GetFrames, ValidFrames, FrameWords;
    var Got(n, b1) := GetU32(b);
    FramesSound(b1, n, byteLength, used);
    var Got(fs, rest) := GetFrames(b1, n, byteLength, used);
    assert PutU32(n) + (PutFrames(fs, byteLength) + rest) == (PutU32(n) + PutFrames(fs, byteLength)) + rest;
  }

  lemma CallStackInverse(fs: seq<Frame>, byteLength: nat, used: nat, s: seq<byte>)
    requires ValidFrames(fs, byteLength) && byteLength <= U32_MAX && |fs| <= MAX_CALL_FRAMES
    requires used + FrameWords(fs) <= MAX_STACK_WORDS
    ensures GetCallStack(PutCallStack(fs, byteLength) + s, byteLength, used) == Got(fs, s)
  {
    hide PutU32, GetU32, PutFrames, GetFrames, ValidFrames, FrameWords;
    assert PutCallStack(fs, byteLength) + s == PutU32(|fs|) + (PutFrames(fs, byteLength) + s);
    U32Inverse(|fs|, PutFrames(fs, byteLength) + s);
    FramesInverse(fs, byteLength, used, s);
  }

  // Output streams

  function PutStream(x: Stream, memoryLength: nat): (b: seq<byte>)
    requires ValidStream(x, memoryLength) && memoryLength <= U16_MAX
    ensures |b| == 8
  {
    PutU32(x.base) + PutU32(x.cursor)
  }

  function GetStream(b: seq<byte>, memoryLength: nat): (r: Parsed<Stream>) {
    var (base, b1) :- GetU32(b);
    var (cursor, b2) :- GetU32(b1);
    if base + 2 > memoryLength || cursor < base + 2 || cursor > memoryLength then NoParse
    else Got(Stream(base, cursor), b2)
  }

  lemma StreamSound(b: seq<byte>, memoryLength: nat)
    requires GetStream(b, memoryLength).Got? && memoryLength <= U16_MAX
    ensures var r := GetStream(b, memoryLength);
      ValidStream(r.value, memoryLength) && b == PutStream(r.value, memoryLength) + r.rest
  {
    hide PutU32, GetU32;
    var Got(x, rest) := GetStream(b, memoryLength);
    assert PutU32(x.base) + (PutU32(x.cursor) + rest) == (PutU32(x.base) + PutU32(x.cursor)) + rest;
  }

  lemma StreamInverse(x: Stream, memoryLength: nat, s: seq<byte>)
    requires ValidStream(x, memoryLength) && memoryLength <= U16_MAX
    ensures GetStream(PutStream(x, memoryLength) + s, memoryLength) == Got(x, s)
  {
    hide PutU32, GetU32;
    assert PutStream(x, memoryLength) + s == PutU32(x.base) + (PutU32(x.cursor) + s);
    U32Inverse(x.base, PutU32(x.cursor) + s);
    U32Inverse(x.cursor, s);
  }

  function PutStreamList(xs: seq<Stream>, memoryLength: nat): (b: seq<byte>)
    requires ValidStreams(xs, memoryLength) && memoryLength <= U16_MAX
    ensures |b| == 8 * |xs|
  {
    if xs == [] then [] else PutStream(xs[0], memoryLength) + PutStreamList(xs[1..], memoryLength)
  }

  function GetStreamList(b: seq<byte>, n: nat, memoryLength: nat): (r: Parsed<seq<Stream>>)
    decreases n
  {
    if n == 0 then Got([], b)
    else
      var (x, b1) :- GetStream(b, memoryLength);
      var (xs, b2) :- GetStreamList(b1, n - 1, memoryLength);
      Got([x] + xs, b2)
  }

  lemma {:induction false} StreamListSound(b: seq<byte>, n: nat, memoryLength: nat)
    requires GetStreamList(b, n, memoryLength).Got? && memoryLength <= U16_MAX
    ensures var r := GetStreamList(b, n, memoryLength);
      |r.value| == n && ValidStreams(r.value, memoryLength) && b == PutStreamList(r.value, memoryLength) + r.rest
    decreases n
  {
    hide GetStream, PutStream, ValidStream;
    if n > 0 {
      StreamSound(b, memoryLength);
      var Got(x, b1) := GetStream(b, memoryLength);
      StreamListSound(b1, n - 1, memoryLength);
      var Got(xs, rest) := GetStreamList(b1, n - 1, memoryLength);
      assert ([x] + xs)[1..] == xs;
      assert PutStream(x, memoryLength) + (PutStreamList(xs, memoryLength) + rest) ==
        (PutStream(x, memoryLength) + PutStreamList(xs, memoryLength)) + rest;
    } else {
      assert [] + b == b;
    }
  }

  lemma {:induction false} StreamListInverse(xs: seq<Stream>, memoryLength: nat, s: seq<byte>)
    requires ValidStreams(xs, memoryLength) && memoryLength <= U16_MAX
    ensures GetStreamList(PutStreamList(xs, memoryLength) + s, |xs|, memoryLength) == Got(xs, s)
    decreases |xs|
  {
    hide GetStream, PutStream, ValidStream;
    if xs != [] {
      var t := PutStreamList(xs[1..], memoryLength) + s;
      assert PutStreamList(xs, memoryLength) + s == PutStream(xs[0], memoryLength) + t;
      StreamInverse(xs[0], memoryLength, t);
      StreamListInverse(xs[1..], memoryLength, s);
      assert [xs[0]] + xs[1..] == xs;
    } else {
      assert [] + s == s;
    }
  }

  function PutStreams(xs: seq<Stream>, memoryLength: nat): (b: seq<byte>)
    requires ValidStreams(xs, memoryLength) && memoryLength <= U16_MAX && |xs| <= MAX_STREAM_DEPTH
    ensures |b| == 4 + 8 * |xs|
  {
    PutU32(|xs|) + PutStreamList(xs, memoryLength)
  }

  function GetStreams(b: seq<byte>, memoryLength: nat): (r: Parsed<seq<Stream>>) {
    var (n, b1) :- GetU32(b);
    if n > MAX_STREAM_DEPTH then NoParse else GetStreamList(b1, n, memoryLength)
  }

  lemma StreamsSound(b: seq<byte>, memoryLength: nat)
    requires GetStreams(b, memoryLength).Got? && memoryLength <= U16_MAX
    ensures var r := GetStreams(b, memoryLength);
      && |r.value| <= MAX_STREAM_DEPTH && ValidStreams(r.value, memoryLength)
      && b == PutStreams(r.value, memoryLength) + r.rest
  {
    hide PutU32, GetU32, PutStreamList, GetStreamList, ValidStreams;
    var Got(n, b1) := GetU32(b);
    StreamListSound(b1, n, memoryLength);
    var Got(xs, rest) := GetStreamList(b1, n, memoryLength);
    assert PutU32(n) + (PutStreamList(xs, memoryLength) + rest) == (PutU32(n) + PutStreamList(xs, memoryLength)) + rest;
  }

  lemma StreamsInverse(xs: seq<Stream>, memoryLength: nat, s: seq<byte>)
    requires ValidStreams(xs, memoryLength) && memoryLength <= U16_MAX && |xs| <= MAX_STREAM_DEPTH
    ensures GetStreams(PutStreams(xs, memoryLength) + s, memoryLength) == Got(xs, s)
  {
    hide PutU32, GetU32, PutStreamList, GetStreamList, ValidStreams;
    assert PutStreams(xs, memoryLength) + s == PutU32(|xs|) + (PutStreamList(xs, memoryLength) + s);
    U32Inverse(|xs|, PutStreamList(xs, memoryLength) + s);
    StreamListInverse(xs, memoryLength, s);
  }
}
