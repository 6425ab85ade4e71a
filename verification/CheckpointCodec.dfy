/**
 The checkpoint encoder and decoder as they run: a presized writer, and a
 reader that goes over the bytes twice, first only to validate them.
 */
module CheckpointCodec {
  import opened Wrappers
  import opened Bytes
  import opened Binary
  import opened Journal
  import opened CheckpointFormat
  import opened CheckpointWire
  import opened CheckpointStacks
  import opened CheckpointParse
  import Messages
  import SnapshotCodec
  import CheckpointLayout
  import Utf8

  // Lists, one element at a time

  lemma {:induction false} WordsSnoc(ws: seq<int>, w: int)
    requires ValidWords(ws) && IsInt16(w)
    ensures ValidWords(ws + [w]) && PutWords(ws + [w]) == PutWords(ws) + PutI16(w)
    decreases |ws|
  {
    hide PutI16;
    if ws != [] {
      assert (ws + [w])[1..] == ws[1..] + [w];
      WordsSnoc(ws[1..], w);
    } else {
      assert (ws + [w])[1..] == [];
    }
  }

  lemma {:induction false} FramesSnoc(fs: seq<Frame>, f: Frame, byteLength: nat)
    requires ValidFrames(fs, byteLength) && ValidFrame(f, byteLength) && byteLength <= U32_MAX
    ensures ValidFrames(fs + [f], byteLength)
    ensures PutFrames(fs + [f], byteLength) == PutFrames(fs, byteLength) + PutFrame(f, byteLength)
    ensures FramesBytes(fs + [f]) == FramesBytes(fs) + FrameBytes(f)
    decreases |fs|
  {
    hide PutFrame, ValidFrame;
    if fs != [] {
      assert (fs + [f])[1..] == fs[1..] + [f];
      FramesSnoc(fs[1..], f, byteLength);
    } else {
      assert (fs + [f])[1..] == [];
    }
  }

  lemma {:induction false} FrameSumsSnoc(fs: seq<Frame>, f: Frame)
    ensures FrameWords(fs + [f]) == FrameWords(fs) + |f.locals| + |f.ds|
    ensures FramesBytes(fs + [f]) == FramesBytes(fs) + FrameBytes(f)
    decreases |fs|
  {
    if fs != [] {
      assert (fs + [f])[1..] == fs[1..] + [f];
      FrameSumsSnoc(fs[1..], f);
    } else {
      assert (fs + [f])[1..] == [];
    }
  }

  lemma {:induction false} FrameSumsPrefix(fs: seq<Frame>, n: nat)
    requires n <= |fs|
    ensures FrameWords(fs[..n]) <= FrameWords(fs) && FramesBytes(fs[..n]) <= FramesBytes(fs)
    decreases |fs| - n
  {
    if n < |fs| {
      assert fs[..n + 1] == fs[..n] + [fs[n]];
      FrameSumsSnoc(fs[..n], fs[n]);
      FrameSumsPrefix(fs, n + 1);
    } else {
      assert fs[..n] == fs;
    }
  }

  lemma {:induction false} StreamListSnoc(xs: seq<Stream>, x: Stream, memoryLength: nat)
    requires ValidStreams(xs, memoryLength) && ValidStream(x, memoryLength) && memoryLength <= U16_MAX
    ensures ValidStreams(xs + [x], memoryLength)
    ensures PutStreamList(xs + [x], memoryLength) == PutStreamList(xs, memoryLength) + PutStream(x, memoryLength)
    decreases |xs|
  {
    hide PutStream, ValidStream;
    if xs != [] {
      assert (xs + [x])[1..] == xs[1..] + [x];
      StreamListSnoc(xs[1..], x, memoryLength);
    } else {
      assert (xs + [x])[1..] == [];
    }
  }

  // Preparation

  method CheckWords(ws: seq<int>) returns (ok: bool)
    ensures ok <==> ValidWords(ws)
  {
    for i := 0 to |ws|
      invariant forall k :: 0 <= k < i ==> IsInt16(ws[k])
    {
      if !IsInt16(ws[i]) {
        return false;
      }
    }
    return true;
  }

  method CheckFrame(f: Frame, byteLength: nat) returns (ok: bool)
    ensures ok <==> ValidFrame(f, byteLength)
  {
    if f.pc >= byteLength || |f.locals| > MAX_LOCALS || |f.ds| > MAX_FRAME_STACK_WORDS {
      return false;
    }
    ok := CheckWords(f.locals);
    if ok {
      ok := CheckWords(f.ds);
    }
    ok := ok && f.argCount <= 7;
  }

  /** Checks every frame, and adds up the stack words as it goes. */
  method CheckFrames(fs: seq<Frame>, byteLength: nat, used: nat) returns (ok: bool)
    requires used <= MAX_STACK_WORDS
    ensures ok <==> ValidFrames(fs, byteLength) && used + FrameWords(fs) <= MAX_STACK_WORDS
  {
    hide ValidFrame, FrameWords;
    var words: nat := used;
    NoFrames(fs);
    for i := 0 to |fs|
      invariant forall k :: 0 <= k < i ==> ValidFrame(fs[k], byteLength)
      invariant words == used + FrameWords(fs[..i]) <= MAX_STACK_WORDS
    {
      assert fs[..i + 1] == fs[..i] + [fs[i]];
      FrameSumsSnoc(fs[..i], fs[i]);
      FrameSumsPrefix(fs, i + 1);
      words := words + |fs[i].locals| + |fs[i].ds|;
      if words > MAX_STACK_WORDS {
        return false;
      }
      var valid := CheckFrame(fs[i], byteLength);
      if !valid {
        return false;
      }
    }
    assert fs[..|fs|] == fs;
    return true;
  }

  lemma NoFrames(fs: seq<Frame>)
    ensures FrameWords(fs[..0]) == 0 && FramesBytes(fs[..0]) == 0
  {
  }

  method CheckStreams(xs: seq<Stream>, memoryLength: nat) returns (ok: bool)
    ensures ok <==> ValidStreams(xs, memoryLength)
  {
    for i := 0 to |xs|
      invariant forall k :: 0 <= k < i ==> ValidStream(xs[k], memoryLength)
    {
      if xs[i].base + 2 > memoryLength || xs[i].cursor < xs[i].base + 2 || xs[i].cursor > memoryLength {
        return false;
      }
    }
    return true;
  }

  method CheckMachine(m: Checkpoint) returns (ok: bool)
    ensures ok <==> ValidCheckpoint(m)
  {
    hide ValidFrames, FrameWords, ValidStreams, ValidWords, ValidStory, ValidConfig, ValidCounts, ValidPendingRead;
    hide MemoryI16;
    if !ValidStory(m.story) || !ValidConfig(m.config) || |m.dynamicMemory| != m.story.staticMemoryBase
      || |m.dataStack| > MAX_STACK_WORDS
    {
      return false;
    }
    ok := CheckWords(m.dataStack);
    if !ok || |m.callStack| > MAX_CALL_FRAMES {
      return false;
    }
    ok := CheckFrames(m.callStack, m.story.byteLength, |m.dataStack|);
    if !ok || !ValidRegisters(m.registers, m.dynamicMemory, m.story.byteSwapped) || |m.stream3| > MAX_STREAM_DEPTH {
      return false;
    }
    ok := CheckStreams(m.stream3, |m.dynamicMemory|);
    ok := ok && ValidCounts(m.counts, m.config) && ValidPendingRead(m.pendingRead, m.story.byteLength, m.dynamicMemory);
  }

  datatype Prepared = Prepared(
    runtimeId: seq<byte>, adapterId: seq<byte>, storyId: seq<byte>, artifactSha256: seq<byte>,
    lastOutput: seq<byte>, serial: seq<byte>, totalBytes: nat)

  ghost predicate Prepares(p: Prepared, ids: Identities, e: Envelope) {
    && p.runtimeId == Utf8.Encode(ids.runtimeId) && p.adapterId == Utf8.Encode(ids.adapterId)
    && p.storyId == Utf8.Encode(e.storyId)
    && Messages.IsSha256(e.artifactSha256) && p.artifactSha256 == HexToBytes(e.artifactSha256)
    && p.lastOutput == Utf8.Encode(e.lastOutput) && p.serial == Utf8.Encode(e.machine.story.serial)
    && p.totalBytes == TotalBytes(ids, e)
  }

  function AddSize(total: nat, amount: nat): Option<nat> {
    SnapshotCodec.AddSize(total, amount, MAX_TOTAL_BYTES)
  }

  /** The sizes of everything in front of the call frames. */
  function SizeBefore(runtimeId: nat, adapterId: nat, storyId: nat, lastOutput: nat, serial: nat, memory: nat, stack: nat)
    : (r: Option<nat>)
    ensures var n := 16 + 2 + runtimeId + 2 + adapterId + 2 + storyId + 40 + 4 + lastOutput + 4 + 16 + serial + 24
        + 4 + memory + 4 + 2 * stack + 4;
      r == if n <= MAX_TOTAL_BYTES then Some(n) else None
  {
    var n1 :- AddSize(16, 2 + runtimeId);
    var n2 :- AddSize(n1, 2 + adapterId);
    var n3 :- AddSize(n2, 2 + storyId);
    var n4 :- AddSize(n3, 32 + 8);
    var n5 :- AddSize(n4, 4 + lastOutput);
    var n6 :- AddSize(n5, 4);
    var n7 :- AddSize(n6, 16 + serial);
    var n8 :- AddSize(n7, 24);
    var n9 :- AddSize(n8, 4 + memory);
    var n10 :- AddSize(n9, 4 + stack * 2);
    AddSize(n10, 4)
  }

  function SizeAfter(total: nat, streams: nat): (r: Option<nat>)
    ensures var n := total + 12 + 4 + streams * 8 + 16 + 24; r == if n <= MAX_TOTAL_BYTES then Some(n) else None
  {
    var n1 :- AddSize(total, 12);
    var n2 :- AddSize(n1, 4 + streams * 8);
    var n3 :- AddSize(n2, 16);
    AddSize(n3, 24)
  }

  method SizeFrames(total: nat, fs: seq<Frame>) returns (r: Option<nat>)
    ensures r == if fs == [] || total + FramesBytes(fs) <= MAX_TOTAL_BYTES then Some(total + FramesBytes(fs)) else None
  {
    hide FramesBytes;
    var n: nat := total;
    NoFrames(fs);
    assert fs[..0] == [];
    for i := 0 to |fs|
      invariant n == total + FramesBytes(fs[..i])
      invariant i > 0 ==> n <= MAX_TOTAL_BYTES
    {
      assert fs[..i + 1] == fs[..i] + [fs[i]];
      FrameSumsSnoc(fs[..i], fs[i]);
      FrameSumsPrefix(fs, i + 1);
      var sum := AddSize(n, 12 + (|fs[i].locals| + |fs[i].ds|) * 2);
      if sum == None {
        return None;
      }
      n := sum.value;
    }
    assert fs[..|fs|] == fs;
    return Some(n);
  }

  /** Validates an envelope, encodes its texts and sizes it exactly; `None` is any codec error. */
  method PrepareEnvelope(ids: Identities, e: Envelope) returns (r: Option<Prepared>)
    requires ValidIdentities(ids)
    ensures r.Some? <==> ValidEnvelope(e)
    ensures r.Some? ==> Prepares(r.value, ids, e)
  {
    hide ValidCheckpoint, FramesBytes, Utf8.Encode, BytesToHex, HexToBytes;
    if e.revision > MAX_SAFE {
      return None;
    }
    var runtimeId := SnapshotCodec.EncodeBounded(ids.runtimeId, MAX_IDENTITY_BYTES, false);
    var adapterId := SnapshotCodec.EncodeBounded(ids.adapterId, MAX_IDENTITY_BYTES, false);
    var storyId := SnapshotCodec.EncodeBounded(e.storyId, MAX_STORY_ID_BYTES, false);
    if storyId == None || !Messages.IsSha256(e.artifactSha256) {
      return None;
    }
    var lastOutput := SnapshotCodec.EncodeBounded(e.lastOutput, MAX_OUTPUT_BYTES, true);
    if lastOutput == None {
      return None;
    }
    var valid := CheckMachine(e.machine);
    if !valid {
      return None;
    }
    CapsCompose(ids, e);
    var m := e.machine;
    var serial := Utf8.Encode(m.story.serial);
    SerialBytes(m);
    var total := Size(
      |runtimeId.value|, |adapterId.value|, |storyId.value|, |lastOutput.value|, |serial|, m);
    return Some(Prepared(
      runtimeId.value, adapterId.value, storyId.value, HexToBytes(e.artifactSha256), lastOutput.value, serial, total.value));
  }

  method Size(runtimeId: nat, adapterId: nat, storyId: nat, lastOutput: nat, serial: nat, m: Checkpoint)
    returns (r: Option<nat>)
    ensures var n := 16 + 2 + runtimeId + 2 + adapterId + 2 + storyId + 40 + 4 + lastOutput
        + MachineBytes(m) - SERIAL_BYTES + serial;
      r == if n <= MAX_TOTAL_BYTES then Some(n) else None
  {
    hide FramesBytes;
    var before := SizeBefore(runtimeId, adapterId, storyId, lastOutput, serial, |m.dynamicMemory|, |m.dataStack|);
    if before == None {
      return None;
    }
    var withFrames := SizeFrames(before.value, m.callStack);
    if withFrames == None {
      return None;
    }
    r := SizeAfter(withFrames.value, |m.stream3|);
  }

  lemma SerialBytes(m: Checkpoint)
    requires ValidCheckpoint(m)
    ensures TextBytes(m.story.serial) == SERIAL_BYTES
  {
    AsciiLength(m.story.serial);
  }

  // Encoding

  method WriteShort(w: BinaryWriter, value: seq<byte>, ghost text: string)
    requires value == Utf8.Encode(text) && |value| < 0x1_0000
    requires w.Valid() && w.Room(2 + |value|)
    modifies w, w.bytes
    ensures w.Valid() && w.Written() == old(w.Written()) + PutShort(text)
  {
    hide PutU16, Utf8.Encode;
    w.U16(|value|);
    w.Bytes(value);
  }

  method WritePrologue(w: BinaryWriter, total: nat)
    requires w.Valid() && w.Room(16) && total < U32_FACTOR
    modifies w, w.bytes
    ensures w.Valid() && w.Written() == old(w.Written()) + PutPrologue(total)
  {
    hide PutU16, PutU32;
    w.Bytes(MAGIC);
    w.U16(SCHEMA_VERSION);
    w.U16(0);
    w.U32(total);
  }

  method WriteIdentities(w: BinaryWriter, p: Prepared, ghost ids: Identities, ghost e: Envelope)
    requires ValidIdentities(ids) && ValidEnvelope(e) && Prepares(p, ids, e)
    requires w.Valid() && w.Room(|PutIdentities(ids, e.storyId)|)
    modifies w, w.bytes
    ensures w.Valid() && w.Written() == old(w.Written()) + PutIdentities(ids, e.storyId)
  {
    hide PutShort, ValidCheckpoint, Utf8.Encode, BytesToHex, HexToBytes, TotalBytes;
    WriteShort(w, p.runtimeId, ids.runtimeId);
    WriteShort(w, p.adapterId, ids.adapterId);
    WriteShort(w, p.storyId, e.storyId);
  }

  method WriteOrigin(w: BinaryWriter, p: Prepared, revision: nat, ghost o: Origin)
    requires o.Fits() && revision == o.revision
    requires p.artifactSha256 == HexToBytes(o.artifactSha256) && p.lastOutput == Utf8.Encode(o.lastOutput)
    requires w.Valid() && w.Room(|PutOrigin(o)|)
    modifies w, w.bytes
    ensures w.Valid() && w.Written() == old(w.Written()) + PutOrigin(o)
  {
    hide PutU64, PutU32, Utf8.Encode, BytesToHex, HexToBytes;
    w.Bytes(p.artifactSha256);
    w.U64(revision);
    w.U32(|p.lastOutput|);
    w.Bytes(p.lastOutput);
  }

  method WriteFlag(w: BinaryWriter, f: bool)
    requires w.Valid() && w.Room(1)
    modifies w, w.bytes
    ensures w.Valid() && w.Written() == old(w.Written()) + PutFlag(f)
  {
    hide PutU8;
    w.U8(if f then 1 else 0);
  }

  method WriteRelease(w: BinaryWriter, swapped: bool, release: nat)
    requires w.Valid() && w.Room(8) && release <= U16_MAX
    modifies w, w.bytes
    ensures w.Valid() && w.Written() == old(w.Written()) + PutRelease(swapped, release)
  {
    hide PutU8, PutU16, PutFlag;
    w.U16(MACHINE_SCHEMA_VERSION);
    w.U16(0);
    w.U8(STORY_VERSION);
    WriteFlag(w, swapped);
    w.U16(release);
  }

  method WriteImage(w: BinaryWriter, i: Image)
    requires w.Valid() && w.Room(12) && i.Fits()
    modifies w, w.bytes
    ensures w.Valid() && w.Written() == old(w.Written()) + PutImage(i)
  {
    hide PutU8, PutU16, PutU32;
    w.U8(i.serialLength);
    w.U8(0);
    w.U16(i.checksum);
    w.U32(i.byteLength);
    w.U32(i.staticMemoryBase);
  }

  method WriteStory(w: BinaryWriter, s: StoryInfo, serial: seq<byte>)
    requires ValidStory(s) && serial == Utf8.Encode(s.serial) && w.Valid() && w.Room(20 + SERIAL_BYTES)
    modifies w, w.bytes
    ensures w.Valid() && w.Written() == old(w.Written()) + PutStory(s)
  {
    hide PutRelease, PutImage, Utf8.Encode, IsAscii;
    AsciiLength(s.serial);
    WriteRelease(w, s.byteSwapped, s.release);
    WriteImage(w, Image(|serial|, s.checksum, s.byteLength, s.staticMemoryBase));
    w.Bytes(serial);
  }

  method WriteConfig(w: BinaryWriter, c: MachineConfig)
    requires ValidConfig(c) && w.Valid() && w.Room(24)
    modifies w, w.bytes
    ensures w.Valid() && w.Written() == old(w.Written()) + PutConfig(c)
  {
    hide PutFlags, PutU64, PutU32;
    WriteFlags(w, c);
    w.U64(if c.maxInstructions.Some? then c.maxInstructions.value else 0);
    w.U64(c.maxInstructionsPerTurn);
    w.U32(c.ioCapabilities);
  }

  method WriteFlags(w: BinaryWriter, c: MachineConfig)
    requires w.Valid() && w.Room(4)
    modifies w, w.bytes
    ensures w.Valid() && w.Written() == old(w.Written()) + PutFlags(c)
  {
    hide PutFlag, PutU8;
    WriteFlag(w, c.isTandy);
    WriteFlag(w, c.strict);
    WriteFlag(w, c.maxInstructions.Some?);
    w.U8(0);
  }

  method WriteWords(w: BinaryWriter, ws: seq<int>)
    requires ValidWords(ws) && w.Valid() && w.Room(2 * |ws|)
    modifies w, w.bytes
    ensures w.Valid() && w.Written() == old(w.Written()) + PutWords(ws)
  {
    hide PutI16, PutWords;
    ghost var before := w.Written();
    assert ws[..0] == [] && before + PutWords([]) == before by {
      NoBytes();
    }
    for i := 0 to |ws|
      invariant w.Valid() && w.offset == |before| + 2 * i
      invariant w.Written() == before + PutWords(ws[..i])
    {
      assert ws[..i + 1] == ws[..i] + [ws[i]];
      WordsSnoc(ws[..i], ws[i]);
      w.I16(ws[i]);
      assert w.Written() == before + (PutWords(ws[..i]) + PutI16(ws[i]));
    }
    assert ws[..|ws|] == ws;
  }

  lemma NoBytes()
    ensures PutWords([]) == []
    ensures forall n: nat :: n <= U32_MAX ==> PutFrames([], n) == []
    ensures forall n: nat :: n <= U16_MAX ==> PutStreamList([], n) == []
  {
  }

  method WriteFrameHead(w: BinaryWriter, h: FrameHead)
    requires h.Fits() && w.Valid() && w.Room(12)
    modifies w, w.bytes
    ensures w.Valid() && w.Written() == old(w.Written()) + PutFrameHead(h)
  {
    hide PutU32, PutU8, PutFlag;
    ghost var before := w.Written();
    w.U32(h.pc);
    w.U8(h.localCount);
    WriteFlag(w, h.discardResult);
    w.U8(h.argCount);
    w.U8(0);
    w.U32(h.stackCount);
  }

  method WriteFrame(w: BinaryWriter, f: Frame, ghost byteLength: nat)
    requires ValidFrame(f, byteLength) && byteLength <= U32_MAX && w.Valid() && w.Room(FrameBytes(f))
    modifies w, w.bytes
    ensures w.Valid() && w.Written() == old(w.Written()) + PutFrame(f, byteLength)
  {
    hide PutFrameHead, PutWords, ValidWords;
    WriteFrameHead(w, HeadOf(f));
    WriteWords(w, f.locals);
    WriteWords(w, f.ds);
  }

  method WriteFrames(w: BinaryWriter, fs: seq<Frame>, ghost byteLength: nat)
    requires ValidFrames(fs, byteLength) && byteLength <= U32_MAX && w.Valid() && w.Room(FramesBytes(fs))
    modifies w, w.bytes
    ensures w.Valid() && w.Written() == old(w.Written()) + PutFrames(fs, byteLength)
  {
    hide PutFrame, PutFrames, ValidFrame, FramesBytes, FrameBytes;
    ghost var before := w.Written();
    assert fs[..0] == [] && before + PutFrames([], byteLength) == before && FramesBytes([]) == 0 by {
      NoBytes();
      NoFrames([]);
    }
    for i := 0 to |fs|
      invariant w.Valid() && w.offset == |before| + FramesBytes(fs[..i])
      invariant w.Written() == before + PutFrames(fs[..i], byteLength)
    {
      assert fs[..i + 1] == fs[..i] + [fs[i]];
      FramesSnoc(fs[..i], fs[i], byteLength);
      FrameSumsPrefix(fs, i + 1);
      WriteFrame(w, fs[i], byteLength);
      assert w.Written() == before + (PutFrames(fs[..i], byteLength) + PutFrame(fs[i], byteLength));
    }
    assert fs[..|fs|] == fs;
  }

  method WriteStreams(w: BinaryWriter, xs: seq<Stream>, ghost memoryLength: nat)
    requires ValidStreams(xs, memoryLength) && memoryLength <= U16_MAX && |xs| <= MAX_STREAM_DEPTH
    requires w.Valid() && w.Room(4 + 8 * |xs|)
    modifies w, w.bytes
    ensures w.Valid() && w.Written() == old(w.Written()) + PutStreams(xs, memoryLength)
  {
    hide PutU32, PutStreamList, PutStream;
    ghost var start := w.Written();
    w.U32(|xs|);
    ghost var before := w.Written();
    assert xs[..0] == [] && before + PutStreamList([], memoryLength) == before by {
      NoBytes();
    }
    for i := 0 to |xs|
      invariant w.Valid() && w.offset == |before| + 8 * i
      invariant w.Written() == before + PutStreamList(xs[..i], memoryLength)
    {
      assert xs[..i + 1] == xs[..i] + [xs[i]];
      StreamListSnoc(xs[..i], xs[i], memoryLength);
      WriteStream(w, xs[i], memoryLength);
      assert w.Written() == before + (PutStreamList(xs[..i], memoryLength) + PutStream(xs[i], memoryLength));
    }
    assert xs[..|xs|] == xs;
    assert w.Written() == start + (PutU32(|xs|) + PutStreamList(xs, memoryLength));
  }

  method WriteStream(w: BinaryWriter, x: Stream, ghost memoryLength: nat)
    requires ValidStream(x, memoryLength) && memoryLength <= U16_MAX && w.Valid() && w.Room(8)
    modifies w, w.bytes
    ensures w.Valid() && w.Written() == old(w.Written()) + PutStream(x, memoryLength)
  {
    hide PutU32;
    w.U32(x.base);
    w.U32(x.cursor);
  }

  method WriteRegisters(w: BinaryWriter, r: Registers)
    requires r.gameplayState <= U32_MAX && r.reseedState <= U32_MAX && IsInt16(r.savedFlags) && r.rngMode <= 1
    requires w.Valid() && w.Room(12)
    modifies w, w.bytes
    ensures w.Valid() && w.Written() == old(w.Written()) + PutRegisters(r)
  {
    hide PutU32, PutI16, PutU8;
    w.U32(r.gameplayState);
    w.U32(r.reseedState);
    w.I16(r.savedFlags);
    w.U8(r.rngMode);
    w.U8(0);
  }

  method WritePending(w: BinaryWriter, p: PendingRead)
    requires PendingFits(p) && w.Valid() && w.Room(24)
    modifies w, w.bytes
    ensures w.Valid() && w.Written() == old(w.Written()) + PutPending(p)
  {
    hide PutU32, PutU16, PutU8, PutReadKind, PutPendingFields;
    WriteReadKind(w);
    WritePendingFields(w, p);
  }

  method WriteReadKind(w: BinaryWriter)
    requires w.Valid() && w.Room(4)
    modifies w, w.bytes
    ensures w.Valid() && w.Written() == old(w.Written()) + PutReadKind()
  {
    hide PutU16, PutU8;
    w.U8(1);
    w.U8(0);
    w.U16(0);
  }

  method WritePendingFields(w: BinaryWriter, p: PendingRead)
    requires PendingFits(p) && w.Valid() && w.Room(20)
    modifies w, w.bytes
    ensures w.Valid() && w.Written() == old(w.Written()) + PutPendingFields(p)
  {
    hide PutU32;
    w.U32(p.instructionPc);
    w.U32(p.continuationPc);
    w.U32(p.textBuffer);
    w.U32(p.parseBuffer);
    w.U32(p.maxLength);
  }

  method WriteImagePart(w: BinaryWriter, i: ImagePart, serial: seq<byte>)
    requires i.Valid() && serial == Utf8.Encode(i.story.serial)
    requires w.Valid() && w.Room(20 + SERIAL_BYTES + 24 + 4 + |i.memory|)
    modifies w, w.bytes
    ensures w.Valid() && w.Written() == old(w.Written()) + PutImagePart(i)
  {
    hide PutStory, PutConfig, PutU32, ValidConfig, Utf8.Encode;
    ghost var before := w.Written();
    WriteStory(w, i.story, serial);
    WriteConfig(w, i.config);
    w.U32(|i.memory|);
    w.Bytes(i.memory);
    ghost var x, y, z := PutStory(i.story), PutConfig(i.config), PutU32(|i.memory|);
    assert before + x + y + z + i.memory == before + (x + (y + (z + i.memory)));
  }

  method WriteStackPart(w: BinaryWriter, k: StackPart, ghost byteLength: nat)
    requires k.Valid(byteLength) && byteLength <= U32_MAX
    requires w.Valid() && w.Room(8 + 2 * |k.dataStack| + FramesBytes(k.callStack))
    modifies w, w.bytes
    ensures w.Valid() && w.Written() == old(w.Written()) + PutStackPart(k, byteLength)
  {
    hide PutU32, PutWords, PutFrames, ValidWords, ValidFrames, FrameWords, FramesBytes;
    ghost var before := w.Written();
    w.U32(|k.dataStack|);
    WriteWords(w, k.dataStack);
    w.U32(|k.callStack|);
    WriteFrames(w, k.callStack, byteLength);
    ghost var x, y := PutU32(|k.dataStack|), PutWords(k.dataStack);
    ghost var u, v := PutU32(|k.callStack|), PutFrames(k.callStack, byteLength);
    assert before + x + y + u + v == before + ((x + y) + (u + v));
  }

  method WriteStatePart(w: BinaryWriter, p: StatePart, ghost i: ImagePart)
    requires i.Valid() && p.Valid(i)
    requires w.Valid() && w.Room(12 + 4 + 8 * |p.streams| + 16 + 24)
    modifies w, w.bytes
    ensures w.Valid() && w.Written() == old(w.Written()) + PutStatePart(p, i)
  {
    hide PutRegisters, PutStreams, PutU64, PutPending, ValidStreams, MemoryI16, PendingFits;
    PendingFitsImage(p.pendingRead, i.story, i.memory);
    ghost var before := w.Written();
    WriteRegisters(w, p.registers);
    WriteStreams(w, p.streams, |i.memory|);
    w.U64(p.counts.instructionCount);
    w.U64(p.counts.turnInstructionCount);
    WritePending(w, p.pendingRead);
    ghost var x, y := PutRegisters(p.registers), PutStreams(p.streams, |i.memory|);
    ghost var u, v := PutU64(p.counts.instructionCount), PutU64(p.counts.turnInstructionCount);
    ghost var z := PutPending(p.pendingRead);
    assert u + (v + z) == (u + v) + z;
  }

  /**
   Encodes exactly the valid checkpoints, each to its wire form; the presized buffer is filled exactly, with every field
   at its offset.
   */
  method Encode(ids: Identities, e: Envelope) returns (r: Option<seq<byte>>)
    requires ValidIdentities(ids)
    ensures r.Some? <==> ValidEnvelope(e)
    ensures r.Some? ==> r.value == Wire(ids, e) && CheckpointLayout.Laid(r.value, ids, e)
  {
    hide CheckpointLayout.Laid, PutPrologue, PutIdentities, PutOrigin, PutImagePart, PutStackPart, PutStatePart, Prepares, TotalBytes;
    hide ValidCheckpoint, Utf8.Encode, FramesBytes, FrameWords, BytesToHex, HexToBytes;
    hide ValidStory, ValidConfig, ValidWords, ValidFrames, ValidRegisters, ValidStreams, ValidCounts, ValidPendingRead;
    var prepared := PrepareEnvelope(ids, e);
    if prepared == None {
      return None;
    }
    var p := prepared.value;
    var m := e.machine;
    PreparedFacts(p, ids, e);
    CapsCompose(ids, e);
    ValidParts(m);
    StoryFits(m.story);
    TotalIsLength(ids, e);
    var w := new BinaryWriter(p.totalBytes);
    WritePrologue(w, p.totalBytes);
    WriteIdentities(w, p, ids, e);
    WriteOrigin(w, p, e.revision, OriginOf(e));
    WriteImagePart(w, ImageOfMachine(m), p.serial);
    WriteStackPart(w, StacksOf(m), m.story.byteLength);
    WriteStatePart(w, StateOf(m), ImageOfMachine(m));
    JoinWire(ids, e);
    CheckpointLayout.WireLaid(ids, e);
    r := w.Finish();
  }

  lemma PreparedFacts(p: Prepared, ids: Identities, e: Envelope)
    requires ValidEnvelope(e) && Prepares(p, ids, e)
    ensures p.totalBytes == TotalBytes(ids, e) && p.serial == Utf8.Encode(e.machine.story.serial)
    ensures OriginOf(e).Fits()
    ensures p.artifactSha256 == HexToBytes(e.artifactSha256) && p.lastOutput == Utf8.Encode(e.lastOutput)
  {
    hide ValidCheckpoint, Utf8.Encode, BytesToHex, HexToBytes, TotalBytes;
  }

  /** The wire form as the writer produces it, part after part. */
  lemma JoinWire(ids: Identities, e: Envelope)
    requires ValidIdentities(ids) && ValidEnvelope(e)
    ensures var m := e.machine;
      && ImageOfMachine(m).Valid() && StacksOf(m).Valid(m.story.byteLength) && StateOf(m).Valid(ImageOfMachine(m))
      && m.story.byteLength <= U32_MAX && OriginOf(e).Fits() && TotalBytes(ids, e) < MAX_TOTAL_BYTES
      && Wire(ids, e) == [] + PutPrologue(TotalBytes(ids, e)) + PutIdentities(ids, e.storyId) + PutOrigin(OriginOf(e))
        + PutImagePart(ImageOfMachine(m)) + PutStackPart(StacksOf(m), m.story.byteLength)
        + PutStatePart(StateOf(m), ImageOfMachine(m))
  {
    hide PutPrologue, PutIdentities, PutOrigin, PutImagePart, PutStackPart, PutStatePart, TotalBytes;
    hide ValidCheckpoint, Utf8.Encode, FramesBytes, FrameWords, BytesToHex, HexToBytes;
    hide ValidStory, ValidConfig, ValidWords, ValidFrames, ValidRegisters, ValidStreams, ValidCounts, ValidPendingRead;
    var m := e.machine;
    CapsCompose(ids, e);
    ValidParts(m);
    StoryFits(m.story);
    var a, b, c := PutPrologue(TotalBytes(ids, e)), PutIdentities(ids, e.storyId), PutOrigin(OriginOf(e));
    var x, y, z := PutImagePart(ImageOfMachine(m)), PutStackPart(StacksOf(m), m.story.byteLength),
      PutStatePart(StateOf(m), ImageOfMachine(m));
    assert [] + a == a;
  }
}
