/**
 The checkpoint decoder: one parser, run twice. The first pass validates and
 keeps nothing; only the second builds the stacks.
 */
module CheckpointDecode {
  import opened Wrappers
  import opened Bytes
  import opened Binary
  import opened Journal
  import opened CheckpointFormat
  import opened CheckpointWire
  import opened CheckpointStacks
  import opened CheckpointParse
  import SnapshotCodec
  import SnapshotFormat

  method ReadFlag(reader: BinaryReader) returns (r: Option<bool>)
    requires reader.Valid()
    modifies reader
    ensures reader.Valid()
    ensures match GetFlag(old(reader.Rest()))
      case NoParse => r == None
      case Got(value, rest) => r == Some(value) && reader.Rest() == rest
  {
    hide GetU8, PutFlag;
    var v :- reader.U8();
    if v != 0 && v != 1 {
      return None;
    }
    return Some(v == 1);
  }

  method ReadPrologue(reader: BinaryReader) returns (r: Option<nat>)
    requires reader.Valid()
    modifies reader
    ensures reader.Valid()
    ensures match GetPrologue(old(reader.Rest()))
      case NoParse => r == None
      case Got(value, rest) => r == Some(value) && reader.Rest() == rest
  {
    hide GetU16, GetU32;
    var magic :- reader.Bytes(8);
    if magic != MAGIC {
      return None;
    }
    var version :- reader.U16();
    if version != SCHEMA_VERSION {
      return None;
    }
    var reserved :- reader.U16();
    if reserved != 0 {
      return None;
    }
    r := reader.U32();
  }

  method ReadShort(reader: BinaryReader, max: nat) returns (r: Option<string>)
    requires reader.Valid()
    modifies reader
    ensures reader.Valid()
    ensures match GetShort(old(reader.Rest()), max)
      case NoParse => r == None
      case Got(value, rest) => r == Some(value) && reader.Rest() == rest
  {
    hide GetU16, SnapshotFormat.GetText;
    var n :- reader.U16();
    r := SnapshotCodec.ReadText(reader, n, max, false);
  }

  method ReadIdentities(reader: BinaryReader, ids: Identities) returns (r: Option<string>)
    requires reader.Valid()
    modifies reader
    ensures reader.Valid()
    ensures match GetIdentities(ids, old(reader.Rest()))
      case NoParse => r == None
      case Got(value, rest) => r == Some(value) && reader.Rest() == rest
  {
    hide GetShort;
    var runtimeId :- ReadShort(reader, MAX_IDENTITY_BYTES);
    if runtimeId != ids.runtimeId {
      return None;
    }
    var adapterId :- ReadShort(reader, MAX_IDENTITY_BYTES);
    if adapterId != ids.adapterId {
      return None;
    }
    r := ReadShort(reader, MAX_STORY_ID_BYTES);
  }

  method ReadOrigin(reader: BinaryReader) returns (r: Option<Origin>)
    requires reader.Valid()
    modifies reader
    ensures reader.Valid()
    ensures match GetOrigin(old(reader.Rest()))
      case NoParse => r == None
      case Got(value, rest) => r == Some(value) && reader.Rest() == rest
  {
    hide GetU64, GetU32, SnapshotFormat.GetText, BytesToHex;
    var digest :- reader.Bytes(32);
    var revision :- reader.SafeU64();
    var n :- reader.U32();
    var lastOutput :- SnapshotCodec.ReadText(reader, n, MAX_OUTPUT_BYTES, true);
    return Some(Origin(BytesToHex(digest), revision, lastOutput));
  }

  method ReadRelease(reader: BinaryReader) returns (r: Option<(bool, nat)>)
    requires reader.Valid()
    modifies reader
    ensures reader.Valid()
    ensures match GetRelease(old(reader.Rest()))
      case NoParse => r == None
      case Got(value, rest) => r == Some(value) && reader.Rest() == rest
  {
    hide GetU8, GetU16, GetFlag;
    var schema :- reader.U16();
    if schema != MACHINE_SCHEMA_VERSION {
      return None;
    }
    var reserved :- reader.U16();
    if reserved != 0 {
      return None;
    }
    var version :- reader.U8();
    if version != STORY_VERSION {
      return None;
    }
    var swapped :- ReadFlag(reader);
    var release :- reader.U16();
    return Some((swapped, release));
  }

  method ReadImage(reader: BinaryReader) returns (r: Option<Image>)
    requires reader.Valid()
    modifies reader
    ensures reader.Valid()
    ensures match GetImage(old(reader.Rest()))
      case NoParse => r == None
      case Got(value, rest) => r == Some(value) && reader.Rest() == rest
  {
    hide GetU8, GetU16, GetU32;
    var serialLength :- reader.U8();
    var reserved :- reader.U8();
    if reserved != 0 {
      return None;
    }
    var checksum :- reader.U16();
    var byteLength :- reader.U32();
    var staticMemoryBase :- reader.U32();
    return Some(Image(serialLength, checksum, byteLength, staticMemoryBase));
  }

  method ReadStory(reader: BinaryReader) returns (r: Option<StoryInfo>)
    requires reader.Valid()
    modifies reader
    ensures reader.Valid()
    ensures match GetStory(old(reader.Rest()))
      case NoParse => r == None
      case Got(value, rest) => r == Some(value) && reader.Rest() == rest
  {
    hide GetRelease, GetImage, SnapshotFormat.GetText, IsAscii, ValidStory;
    var release :- ReadRelease(reader);
    var image :- ReadImage(reader);
    if image.byteLength < 64 || image.staticMemoryBase < 64 || image.staticMemoryBase > U16_MAX
      || image.staticMemoryBase > image.byteLength
    {
      return None;
    }
    var serial :- SnapshotCodec.ReadText(reader, image.serialLength, SERIAL_BYTES, true);
    var story := StoryInfo(
      release.0, release.1, serial, image.checksum, image.byteLength, image.staticMemoryBase);
    if image.serialLength != SERIAL_BYTES || !ValidStory(story) {
      return None;
    }
    return Some(story);
  }

  method ReadFlags(reader: BinaryReader) returns (r: Option<(bool, bool, bool)>)
    requires reader.Valid()
    modifies reader
    ensures reader.Valid()
    ensures match GetFlags(old(reader.Rest()))
      case NoParse => r == None
      case Got(value, rest) => r == Some(value) && reader.Rest() == rest
  {
    hide GetFlag, GetU8;
    var isTandy :- ReadFlag(reader);
    var strict :- ReadFlag(reader);
    var limited :- ReadFlag(reader);
    var reserved :- reader.U8();
    if reserved != 0 {
      return None;
    }
    return Some((isTandy, strict, limited));
  }

  method ReadConfig(reader: BinaryReader) returns (r: Option<MachineConfig>)
    requires reader.Valid()
    modifies reader
    ensures reader.Valid()
    ensures match GetConfig(old(reader.Rest()))
      case NoParse => r == None
      case Got(value, rest) => r == Some(value) && reader.Rest() == rest
  {
    hide GetFlags, GetU64, GetU32;
    var flags :- ReadFlags(reader);
    var payload :- reader.SafeU64();
    if !flags.2 && payload != 0 {
      return None;
    }
    if flags.2 && payload < 1 {
      return None;
    }
    var perTurn :- reader.SafeU64();
    if perTurn < 1 {
      return None;
    }
    var ioCapabilities :- reader.U32();
    return Some(MachineConfig(flags.0, flags.1, if flags.2 then Some(payload) else None, perTurn, ioCapabilities));
  }

  method ReadImagePart(reader: BinaryReader) returns (r: Option<ImagePart>)
    requires reader.Valid()
    modifies reader
    ensures reader.Valid()
    ensures match GetImagePart(old(reader.Rest()))
      case NoParse => r == None
      case Got(value, rest) => r == Some(value) && reader.Rest() == rest
  {
    hide GetStory, GetConfig, GetU32;
    var story :- ReadStory(reader);
    var config :- ReadConfig(reader);
    var n :- reader.U32();
    if n != story.staticMemoryBase || n > MAX_TOTAL_BYTES {
      return None;
    }
    var memory :- reader.Bytes(n);
    return Some(ImagePart(story, config, memory));
  }

  // Lists, one element at a time

  /** The first words of `n` are read; `rest` holds `left` more, and then what follows them. */
  ghost predicate ReadingWords(b: seq<byte>, n: nat, words: seq<int>, rest: seq<byte>, left: nat) {
    GetWords(b, n) ==
      match GetWords(rest, left)
      case NoParse => NoParse
      case Got(more, after) => Got(words + more, after)
  }

  lemma WordsStart(b: seq<byte>, n: nat)
    ensures ReadingWords(b, n, [], b, n)
  {
    if GetWords(b, n).Got? {
      assert [] + GetWords(b, n).value == GetWords(b, n).value;
    }
  }

  lemma WordsStep(b: seq<byte>, n: nat, words: seq<int>, rest: seq<byte>, left: nat)
    requires left > 0 && ReadingWords(b, n, words, rest, left)
    ensures match GetI16(rest)
      case NoParse => GetWords(b, n) == NoParse
      case Got(w, after) => ReadingWords(b, n, words + [w], after, left - 1)
  {
    hide GetI16;
    if GetI16(rest).Got? && GetWords(GetI16(rest).rest, left - 1).Got? {
      var w, more := GetI16(rest).value, GetWords(GetI16(rest).rest, left - 1).value;
      assert words + ([w] + more) == words + [w] + more;
    }
  }

  lemma WordsDone(b: seq<byte>, n: nat, words: seq<int>, rest: seq<byte>)
    requires ReadingWords(b, n, words, rest, 0)
    ensures GetWords(b, n) == Got(words, rest)
  {
    assert words + [] == words;
  }

  /** `words` is only built when the pass materializes. */
  method ReadWords(reader: BinaryReader, n: nat, materialize: bool) returns (ok: bool, words: seq<int>)
    requires reader.Valid()
    modifies reader
    ensures reader.Valid()
    ensures match GetWords(old(reader.Rest()), n)
      case NoParse => !ok
      case Got(value, rest) => ok && reader.Rest() == rest && words == if materialize then value else []
  {
    hide GetI16, GetWords, ReadingWords;
    ghost var b := reader.Rest();
    ghost var done: seq<int> := [];
    words := [];
    WordsStart(b, n);
    for i := 0 to n
      modifies reader
      invariant reader.Valid() && ReadingWords(b, n, done, reader.Rest(), n - i)
      invariant words == if materialize then done else []
    {
      WordsStep(b, n, done, reader.Rest(), n - i);
      var word := reader.I16();
      if word == None {
        return false, [];
      }
      done := done + [word.value];
      if materialize {
        words := words + [word.value];
      }
    }
    WordsDone(b, n, done, reader.Rest());
    return true, words;
  }

  method ReadFrameHead(reader: BinaryReader, byteLength: nat, used: nat) returns (r: Option<FrameHead>)
    requires reader.Valid()
    modifies reader
    ensures reader.Valid()
    ensures match GetFrameHead(old(reader.Rest()))
      case NoParse => r == None
      case Got(h, rest) =>
        if h.Allowed(byteLength, used) then r == Some(h) && reader.Rest() == rest else r == None
  {
    hide GetU8, GetU32, GetFlag;
    var pc :- reader.U32();
    if pc >= byteLength {
      return None;
    }
    var localCount :- reader.U8();
    if localCount > MAX_LOCALS {
      return None;
    }
    var discardResult :- ReadFlag(reader);
    var argCount :- reader.U8();
    if argCount > 7 {
      return None;
    }
    var reserved :- reader.U8();
    if reserved != 0 {
      return None;
    }
    var stackCount :- reader.U32();
    if stackCount > MAX_FRAME_STACK_WORDS || used + localCount + stackCount > MAX_STACK_WORDS {
      return None;
    }
    return Some(FrameHead(pc, localCount, discardResult, argCount, stackCount));
  }

  /** The number of words on the frame's stacks, and the frame if the pass materializes. */
  method ReadFrame(reader: BinaryReader, byteLength: nat, used: nat, materialize: bool) returns (r: Option<(nat, Frame)>)
    requires reader.Valid()
    modifies reader
    ensures reader.Valid()
    ensures match GetFrame(old(reader.Rest()), byteLength, used)
      case NoParse => r == None
      case Got(f, rest) =>
        && r.Some? && reader.Rest() == rest && r.value.0 == |f.locals| + |f.ds|
        && (materialize ==> r.value.1 == f)
  {
    hide GetFrameHead, GetWords;
    var h :- ReadFrameHead(reader, byteLength, used);
    ghost var b1 := reader.Rest();
    var ok, locals := ReadWords(reader, h.localCount, materialize);
    if !ok {
      return None;
    }
    ghost var b2 := reader.Rest();
    var ds;
    ok, ds := ReadWords(reader, h.stackCount, materialize);
    if !ok {
      return None;
    }
    WordsCount(b1, h.localCount);
    WordsCount(b2, h.stackCount);
    return Some((h.localCount + h.stackCount, Frame(h.pc, locals, ds, h.discardResult, h.argCount)));
  }

  lemma WordsCount(b: seq<byte>, n: nat)
    ensures GetWords(b, n).Got? ==> |GetWords(b, n).value| == n
  {
    if GetWords(b, n).Got? {
      WordsSound(b, n);
    }
  }

  ghost predicate ReadingFrames(
    b: seq<byte>, n: nat, byteLength: nat, used: nat, frames: seq<Frame>, rest: seq<byte>, left: nat, words: nat)
  {
    GetFrames(b, n, byteLength, used) ==
      match GetFrames(rest, left, byteLength, words)
      case NoParse => NoParse
      case Got(more, after) => Got(frames + more, after)
  }

  lemma FramesStart(b: seq<byte>, n: nat, byteLength: nat, used: nat)
    ensures ReadingFrames(b, n, byteLength, used, [], b, n, used)
  {
    if GetFrames(b, n, byteLength, used).Got? {
      assert [] + GetFrames(b, n, byteLength, used).value == GetFrames(b, n, byteLength, used).value;
    }
  }

  lemma FramesStep(
    b: seq<byte>, n: nat, byteLength: nat, used: nat, frames: seq<Frame>, rest: seq<byte>, left: nat, words: nat)
    requires left > 0 && ReadingFrames(b, n, byteLength, used, frames, rest, left, words)
    ensures match GetFrame(rest, byteLength, words)
      case NoParse => GetFrames(b, n, byteLength, used) == NoParse
      case Got(f, after) =>
        ReadingFrames(b, n, byteLength, used, frames + [f], after, left - 1, words + |f.locals| + |f.ds|)
  {
    hide GetFrame;
    var first := GetFrame(rest, byteLength, words);
    if first.Got? {
      var f := first.value;
      var next := GetFrames(first.rest, left - 1, byteLength, words + |f.locals| + |f.ds|);
      if next.Got? {
        assert frames + ([f] + next.value) == frames + [f] + next.value;
      }
    }
  }

  lemma FramesDone(
    b: seq<byte>, n: nat, byteLength: nat, used: nat, frames: seq<Frame>, rest: seq<byte>, words: nat)
    requires ReadingFrames(b, n, byteLength, used, frames, rest, 0, words)
    ensures GetFrames(b, n, byteLength, used) == Got(frames, rest)
  {
    assert frames + [] == frames;
  }

  method ReadFrames(reader: BinaryReader, n: nat, byteLength: nat, used: nat, materialize: bool)
    returns (ok: bool, frames: seq<Frame>)
    requires reader.Valid()
    modifies reader
    ensures reader.Valid()
    ensures match GetFrames(old(reader.Rest()), n, byteLength, used)
      case NoParse => !ok
      case Got(value, rest) => ok && reader.Rest() == rest && frames == if materialize then value else []
  {
    hide GetFrame, GetFrames, ReadingFrames;
    ghost var b := reader.Rest();
    ghost var done: seq<Frame> := [];
    var words: nat := used;
    frames := [];
    FramesStart(b, n, byteLength, used);
    for i := 0 to n
      modifies reader
      invariant reader.Valid() && ReadingFrames(b, n, byteLength, used, done, reader.Rest(), n - i, words)
      invariant frames == if materialize then done else []
    {
      FramesStep(b, n, byteLength, used, done, reader.Rest(), n - i, words);
      ghost var expected := GetFrame(reader.Rest(), byteLength, words);
      var frame := ReadFrame(reader, byteLength, words, materialize);
      if frame == None {
        return false, [];
      }
      done := done + [expected.value];
      words := words + frame.value.0;
      if materialize {
        frames := frames + [frame.value.1];
      }
    }
    FramesDone(b, n, byteLength, used, done, reader.Rest(), words);
    return true, frames;
  }

  method ReadStackPart(reader: BinaryReader, byteLength: nat, materialize: bool) returns (ok: bool, part: StackPart)
    requires reader.Valid()
    modifies reader
    ensures reader.Valid()
    ensures match GetStackPart(old(reader.Rest()), byteLength)
      case NoParse => !ok
      case Got(value, rest) =>
        ok && reader.Rest() == rest && part == if materialize then value else StackPart([], [])
  {
    hide GetU32, GetWords, GetFrames;
    part := StackPart([], []);
    var words := reader.U32();
    if words == None || words.value > MAX_STACK_WORDS {
      return false, part;
    }
    ghost var b := reader.Rest();
    var dataStack;
    ok, dataStack := ReadWords(reader, words.value, materialize);
    if !ok {
      return;
    }
    WordsCount(b, words.value);
    var frames := reader.U32();
    if frames == None || frames.value > MAX_CALL_FRAMES {
      return false, part;
    }
    var callStack;
    ok, callStack := ReadFrames(reader, frames.value, byteLength, words.value, materialize);
    if ok {
      part := StackPart(dataStack, callStack);
    }
  }

  ghost predicate ReadingStreams(b: seq<byte>, n: nat, limit: nat, streams: seq<Stream>, rest: seq<byte>, left: nat) {
    GetStreamList(b, n, limit) ==
      match GetStreamList(rest, left, limit)
      case NoParse => NoParse
      case Got(more, after) => Got(streams + more, after)
  }

  lemma StreamsStart(b: seq<byte>, n: nat, limit: nat)
    ensures ReadingStreams(b, n, limit, [], b, n)
  {
    if GetStreamList(b, n, limit).Got? {
      assert [] + GetStreamList(b, n, limit).value == GetStreamList(b, n, limit).value;
    }
  }

  lemma StreamsStep(b: seq<byte>, n: nat, limit: nat, streams: seq<Stream>, rest: seq<byte>, left: nat)
    requires left > 0 && ReadingStreams(b, n, limit, streams, rest, left)
    ensures match GetStream(rest, limit)
      case NoParse => GetStreamList(b, n, limit) == NoParse
      case Got(x, after) => ReadingStreams(b, n, limit, streams + [x], after, left - 1)
  {
    hide GetStream;
    var first := GetStream(rest, limit);
    if first.Got? && GetStreamList(first.rest, left - 1, limit).Got? {
      var more := GetStreamList(first.rest, left - 1, limit).value;
      assert streams + ([first.value] + more) == streams + [first.value] + more;
    }
  }

  lemma StreamsDone(b: seq<byte>, n: nat, limit: nat, streams: seq<Stream>, rest: seq<byte>)
    requires ReadingStreams(b, n, limit, streams, rest, 0)
    ensures GetStreamList(b, n, limit) == Got(streams, rest)
  {
    assert streams + [] == streams;
  }

  method ReadStream(reader: BinaryReader, limit: nat) returns (r: Option<Stream>)
    requires reader.Valid()
    modifies reader
    ensures reader.Valid()
    ensures match GetStream(old(reader.Rest()), limit)
      case NoParse => r == None
      case Got(value, rest) => r == Some(value) && reader.Rest() == rest
  {
    hide GetU32;
    var base :- reader.U32();
    var cursor :- reader.U32();
    if base + 2 > limit || cursor < base + 2 || cursor > limit {
      return None;
    }
    return Some(Stream(base, cursor));
  }

  method ReadStreams(reader: BinaryReader, limit: nat, materialize: bool) returns (ok: bool, streams: seq<Stream>)
    requires reader.Valid()
    modifies reader
    ensures reader.Valid()
    ensures match GetStreams(old(reader.Rest()), limit)
      case NoParse => !ok
      case Got(value, rest) => ok && reader.Rest() == rest && streams == if materialize then value else []
  {
    hide GetU32, GetStream, GetStreamList, ReadingStreams;
    streams := [];
    var count := reader.U32();
    if count == None || count.value > MAX_STREAM_DEPTH {
      return false, [];
    }
    var n := count.value;
    ghost var b := reader.Rest();
    ghost var done: seq<Stream> := [];
    StreamsStart(b, n, limit);
    for i := 0 to n
      modifies reader
      invariant reader.Valid() && ReadingStreams(b, n, limit, done, reader.Rest(), n - i)
      invariant streams == if materialize then done else []
    {
      StreamsStep(b, n, limit, done, reader.Rest(), n - i);
      var stream := ReadStream(reader, limit);
      if stream == None {
        return false, [];
      }
      done := done + [stream.value];
      if materialize {
        streams := streams + [stream.value];
      }
    }
    StreamsDone(b, n, limit, done, reader.Rest());
    return true, streams;
  }

  method ReadRegisters(reader: BinaryReader, memory: seq<byte>, swapped: bool) returns (r: Option<Registers>)
    requires reader.Valid() && 18 <= |memory|
    modifies reader
    ensures reader.Valid()
    ensures match GetRegisters(old(reader.Rest()), memory, swapped)
      case NoParse => r == None
      case Got(value, rest) => r == Some(value) && reader.Rest() == rest
  {
    hide GetU8, GetI16, GetU32, MemoryI16;
    var gameplayState :- reader.U32();
    var reseedState :- reader.U32();
    var savedFlags :- reader.I16();
    var rngMode :- reader.U8();
    if rngMode != 0 && rngMode != 1 {
      return None;
    }
    var reserved :- reader.U8();
    if reserved != 0 || MemoryI16(memory, 16, swapped) != savedFlags {
      return None;
    }
    return Some(Registers(gameplayState, reseedState, savedFlags, rngMode));
  }

  method ReadCounts(reader: BinaryReader, c: MachineConfig) returns (r: Option<Counts>)
    requires reader.Valid()
    modifies reader
    ensures reader.Valid()
    ensures match GetCounts(old(reader.Rest()), c)
      case NoParse => r == None
      case Got(value, rest) => r == Some(value) && reader.Rest() == rest
  {
    hide GetU64;
    var instructionCount :- reader.SafeU64();
    var turnInstructionCount :- reader.SafeU64();
    if c.maxInstructions.Some? && turnInstructionCount > instructionCount {
      return None;
    }
    if c.maxInstructions.Some? && instructionCount > c.maxInstructions.value {
      return None;
    }
    if turnInstructionCount > c.maxInstructionsPerTurn {
      return None;
    }
    return Some(Counts(instructionCount, turnInstructionCount));
  }

  method ReadKind(reader: BinaryReader) returns (r: Option<()>)
    requires reader.Valid()
    modifies reader
    ensures reader.Valid()
    ensures match GetReadKind(old(reader.Rest()))
      case NoParse => r == None
      case Got(value, rest) => r == Some(value) && reader.Rest() == rest
  {
    hide GetU8, GetU16;
    var kind :- reader.U8();
    if kind != 1 {
      return None;
    }
    var reserved1 :- reader.U8();
    if reserved1 != 0 {
      return None;
    }
    var reserved2 :- reader.U16();
    if reserved2 != 0 {
      return None;
    }
    return Some(());
  }

  /** Reads the five fields, each checked as soon as it is there. */
  method ReadPending(reader: BinaryReader, byteLength: nat, memory: seq<byte>) returns (r: Option<PendingRead>)
    requires reader.Valid()
    modifies reader
    ensures reader.Valid()
    ensures match GetPending(old(reader.Rest()), byteLength, memory)
      case NoParse => r == None
      case Got(value, rest) => r == Some(value) && reader.Rest() == rest
  {
    hide GetReadKind, GetU32, GetPendingFields;
    var _ :- ReadKind(reader);
    ghost var fields := reader.Rest();
    var p := ReadPendingFields(reader);
    if p == None {
      return None;
    }
    if p.value.instructionPc >= byteLength || p.value.continuationPc >= byteLength
      || p.value.continuationPc <= p.value.instructionPc
      || p.value.textBuffer >= |memory| || p.value.parseBuffer >= |memory| || p.value.parseBuffer == 0
      || p.value.maxLength < 1 || p.value.maxLength > 0xFF
    {
      return None;
    }
    if p.value.instructionPc < |memory| && memory[p.value.instructionPc] != READ_OPCODE {
      return None;
    }
    if memory[p.value.textBuffer] != p.value.maxLength || p.value.textBuffer + p.value.maxLength + 1 > |memory| {
      return None;
    }
    var maximumTokens: int := memory[p.value.parseBuffer];
    if p.value.parseBuffer + 2 + maximumTokens * 4 > |memory| {
      return None;
    }
    return p;
  }

  method ReadPendingFields(reader: BinaryReader) returns (r: Option<PendingRead>)
    requires reader.Valid()
    modifies reader
    ensures reader.Valid()
    ensures match GetPendingFields(old(reader.Rest()))
      case NoParse => r == None
      case Got(value, rest) => r == Some(value) && reader.Rest() == rest
  {
    hide GetU32;
    var instructionPc :- reader.U32();
    var continuationPc :- reader.U32();
    var textBuffer :- reader.U32();
    var parseBuffer :- reader.U32();
    var maxLength :- reader.U32();
    return Some(PendingRead(instructionPc, continuationPc, textBuffer, parseBuffer, maxLength));
  }

  method ReadStatePart(reader: BinaryReader, i: ImagePart, materialize: bool) returns (r: Option<StatePart>)
    requires reader.Valid() && i.Valid()
    modifies reader
    ensures reader.Valid()
    ensures match GetStatePart(old(reader.Rest()), i)
      case NoParse => r == None
      case Got(value, rest) =>
        && r.Some? && reader.Rest() == rest
        && r.value == if materialize then value else value.(streams := [])
  {
    hide GetRegisters, GetStreams, GetCounts, GetPending, ValidConfig;
    var registers :- ReadRegisters(reader, i.memory, i.story.byteSwapped);
    var ok, streams := ReadStreams(reader, |i.memory|, materialize);
    if !ok {
      return None;
    }
    var counts :- ReadCounts(reader, i.config);
    var pendingRead :- ReadPending(reader, i.story.byteLength, i.memory);
    return Some(StatePart(registers, streams, counts, pendingRead));
  }

  /** The machine up to the last byte; it is returned only when the pass materializes. */
  method ReadMachine(reader: BinaryReader, materialize: bool) returns (ok: bool, m: Option<Checkpoint>)
    requires reader.Valid()
    modifies reader
    ensures ok <==> ParseMachine(old(reader.Rest())).Some?
    ensures m == if materialize then ParseMachine(old(reader.Rest())) else None
  {
    hide GetImagePart, GetStackPart, GetStatePart;
    ghost var b := reader.Rest();
    ok, m := false, None;
    var image := ReadImagePart(reader);
    if image == None {
      return;
    }
    ImagePartSound(b);
    var valid, stacks := ReadStackPart(reader, image.value.story.byteLength, materialize);
    if !valid {
      return;
    }
    var state := ReadStatePart(reader, image.value, materialize);
    if state == None {
      return;
    }
    var remaining := reader.Remaining();
    if remaining != 0 {
      return;
    }
    ok := true;
    if materialize {
      m := Some(Assemble(image.value, stacks, state.value));
    }
  }

  /** One pass over the bytes. Both passes accept the same inputs. */
  method ParsePass(ids: Identities, bytes: seq<byte>, materialize: bool) returns (ok: bool, e: Option<Envelope>)
    requires |bytes| <= MAX_TOTAL_BYTES
    ensures ok <==> Parse(ids, bytes).Some?
    ensures e == if materialize then Parse(ids, bytes) else None
  {
    hide GetPrologue, GetIdentities, GetOrigin, ParseMachine;
    ok, e := false, None;
    var reader := new BinaryReader(bytes);
    var total := ReadPrologue(reader);
    if total == None || total.value != |bytes| {
      return;
    }
    var storyId := ReadIdentities(reader, ids);
    if storyId == None {
      return;
    }
    var o := ReadOrigin(reader);
    if o == None {
      return;
    }
    var m;
    ok, m := ReadMachine(reader, materialize);
    if ok && materialize {
      e := Some(Envelope(storyId.value, o.value.artifactSha256, o.value.revision, o.value.lastOutput, m.value));
    }
  }

  /** Accepts exactly the encodings of valid checkpoints, and returns the one that was encoded. */
  method Decode(ids: Identities, bytes: seq<byte>) returns (r: Option<Envelope>)
    requires ValidIdentities(ids)
    ensures r == Parse(ids, bytes)
    ensures forall e :: r == Some(e) <==> ValidEnvelope(e) && bytes == Wire(ids, e)
  {
    hide Parse, Wire, ValidEnvelope;
    forall e
      ensures Parse(ids, bytes) == Some(e) <==> ValidEnvelope(e) && bytes == Wire(ids, e)
    {
      Canonical(ids, bytes, e);
    }
    if |bytes| > MAX_TOTAL_BYTES || |bytes| < 16 {
      OutsideLimits(ids, bytes);
      return None;
    }
    var valid, _ := ParsePass(ids, bytes, false);
    if !valid {
      return None;
    }
    var _, decoded := ParsePass(ids, bytes, true);
    return decoded;
  }

  lemma OutsideLimits(ids: Identities, bytes: seq<byte>)
    requires |bytes| > MAX_TOTAL_BYTES || |bytes| < 16
    ensures Parse(ids, bytes) == None
  {
    hide GetIdentities, GetOrigin, ParseMachine, GetPrologue, PutPrologue;
    if GetPrologue(bytes).Got? {
      PrologueSound(bytes);
    }
  }
}
