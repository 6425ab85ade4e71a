/** The whole checkpoint on the wire, and the theorem that its codec is canonical. */
module CheckpointParse {
  import opened Wrappers
  import opened Bytes
  import opened CheckpointFormat
  import opened CheckpointWire
  import opened CheckpointStacks
  import Utf8

  // Registers

  function PutRegisters(r: Registers): (b: seq<byte>)
    requires r.gameplayState <= U32_MAX && r.reseedState <= U32_MAX && IsInt16(r.savedFlags) && r.rngMode <= 1
    ensures |b| == 12
  {
    PutU32(r.gameplayState) + (PutU32(r.reseedState) + (PutI16(r.savedFlags) + (PutU8(r.rngMode) + PutU8(0))))
  }

  function GetRegisters(b: seq<byte>, memory: seq<byte>, swapped: bool): (r: Parsed<Registers>)
    requires 18 <= |memory|
  {
    var (gameplayState, b1) :- GetU32(b);
    var (reseedState, b2) :- GetU32(b1);
    var (savedFlags, b3) :- GetI16(b2);
    var (rngMode, b4) :- GetU8(b3);
    var (reserved, b5) :- GetU8(b4);
    if rngMode > 1 || reserved != 0 || MemoryI16(memory, 16, swapped) != savedFlags then NoParse
    else Got(Registers(gameplayState, reseedState, savedFlags, rngMode), b5)
  }

  lemma RegistersTail(r: Registers, s: seq<byte>)
    requires r.gameplayState <= U32_MAX && r.reseedState <= U32_MAX && IsInt16(r.savedFlags) && r.rngMode <= 1
    ensures PutRegisters(r) + s ==
      PutU32(r.gameplayState) + (PutU32(r.reseedState) + (PutI16(r.savedFlags) + (PutU8(r.rngMode) + (PutU8(0) + s))))
  {
    hide PutU8, PutI16, PutU32;
  }

  lemma RegistersSound(b: seq<byte>, memory: seq<byte>, swapped: bool)
    requires 18 <= |memory| && GetRegisters(b, memory, swapped).Got?
    ensures var r := GetRegisters(b, memory, swapped);
      ValidRegisters(r.value, memory, swapped) && b == PutRegisters(r.value) + r.rest
  {
    hide PutU8, GetU8, PutI16, GetI16, PutU32, GetU32, PutRegisters, MemoryI16;
    var Got(v, rest) := GetRegisters(b, memory, swapped);
    RegistersTail(v, rest);
  }

  lemma RegistersInverse(r: Registers, memory: seq<byte>, swapped: bool, s: seq<byte>)
    requires ValidRegisters(r, memory, swapped)
    ensures GetRegisters(PutRegisters(r) + s, memory, swapped) == Got(r, s)
  {
    hide PutU8, GetU8, PutI16, GetI16, PutU32, GetU32, PutRegisters, MemoryI16;
    RegistersTail(r, s);
    var t4 := PutU8(0) + s;
    var t3 := PutU8(r.rngMode) + t4;
    var t2 := PutI16(r.savedFlags) + t3;
    var t1 := PutU32(r.reseedState) + t2;
    U32Inverse(r.gameplayState, t1);
    U32Inverse(r.reseedState, t2);
    I16Inverse(r.savedFlags, t3);
    U8Inverse(r.rngMode, t4);
    U8Inverse(0, s);
  }

  // Instruction counts

  function PutCounts(n: Counts): (b: seq<byte>)
    requires n.instructionCount <= MAX_SAFE && n.turnInstructionCount <= MAX_SAFE
    ensures |b| == 16
  {
    PutU64(n.instructionCount) + PutU64(n.turnInstructionCount)
  }

  function GetCounts(b: seq<byte>, c: MachineConfig): (r: Parsed<Counts>) {
    var (instructionCount, b1) :- GetU64(b);
    var (turnInstructionCount, b2) :- GetU64(b1);
    if c.maxInstructions.Some? && turnInstructionCount > instructionCount then NoParse
    else if c.maxInstructions.Some? && instructionCount > c.maxInstructions.value then NoParse
    else if turnInstructionCount > c.maxInstructionsPerTurn then NoParse
    else Got(Counts(instructionCount, turnInstructionCount), b2)
  }

  lemma CountsSound(b: seq<byte>, c: MachineConfig)
    requires GetCounts(b, c).Got?
    ensures var r := GetCounts(b, c); ValidCounts(r.value, c) && b == PutCounts(r.value) + r.rest
  {
    hide PutU64, GetU64;
    var Got(n, rest) := GetCounts(b, c);
    assert PutU64(n.instructionCount) + (PutU64(n.turnInstructionCount) + rest) ==
      (PutU64(n.instructionCount) + PutU64(n.turnInstructionCount)) + rest;
  }

  lemma CountsInverse(n: Counts, c: MachineConfig, s: seq<byte>)
    requires ValidCounts(n, c)
    ensures GetCounts(PutCounts(n) + s, c) == Got(n, s)
  {
    hide PutU64, GetU64;
    var t := PutU64(n.turnInstructionCount) + s;
    assert PutCounts(n) + s == PutU64(n.instructionCount) + t;
    U64Inverse(n.instructionCount, t);
    U64Inverse(n.turnInstructionCount, s);
  }

  // The pending read

  function PutReadKind(): (b: seq<byte>)
    ensures |b| == 4
  {
    PutU8(1) + (PutU8(0) + PutU16(0))
  }

  function GetReadKind(b: seq<byte>): (r: Parsed<()>) {
    var (kind, b1) :- GetU8(b);
    var (reserved1, b2) :- GetU8(b1);
    var (reserved2, b3) :- GetU16(b2);
    if kind != 1 || reserved1 != 0 || reserved2 != 0 then NoParse else Got((), b3)
  }

  lemma ReadKindSound(b: seq<byte>)
    requires GetReadKind(b).Got?
    ensures b == PutReadKind() + GetReadKind(b).rest
  {
    hide PutU8, GetU8, PutU16, GetU16;
    var rest := GetReadKind(b).rest;
    assert PutU8(1) + (PutU8(0) + (PutU16(0) + rest)) == (PutU8(1) + (PutU8(0) + PutU16(0))) + rest;
  }

  lemma ReadKindInverse(s: seq<byte>)
    ensures GetReadKind(PutReadKind() + s) == Got((), s)
  {
    hide PutU8, GetU8, PutU16, GetU16;
    var t2 := PutU16(0) + s;
    var t1 := PutU8(0) + t2;
    assert PutReadKind() + s == PutU8(1) + t1;
    U8Inverse(1, t1);
    U8Inverse(0, t2);
    U16Inverse(0, s);
  }

  predicate PendingFits(p: PendingRead) {
    && p.instructionPc <= U32_MAX && p.continuationPc <= U32_MAX && p.textBuffer <= U32_MAX
    && p.parseBuffer <= U32_MAX && p.maxLength <= U32_MAX
  }

  function PutPendingFields(p: PendingRead): (b: seq<byte>)
    requires PendingFits(p)
    ensures |b| == 20
  {
    PutU32(p.instructionPc) + (PutU32(p.continuationPc) +
      (PutU32(p.textBuffer) + (PutU32(p.parseBuffer) + PutU32(p.maxLength))))
  }

  function GetPendingFields(b: seq<byte>): (r: Parsed<PendingRead>) {
    var (instructionPc, b1) :- GetU32(b);
    var (continuationPc, b2) :- GetU32(b1);
    var (textBuffer, b3) :- GetU32(b2);
    var (parseBuffer, b4) :- GetU32(b3);
    var (maxLength, b5) :- GetU32(b4);
    Got(PendingRead(instructionPc, continuationPc, textBuffer, parseBuffer, maxLength), b5)
  }

  lemma PendingFieldsTail(p: PendingRead, s: seq<byte>)
    requires PendingFits(p)
    ensures PutPendingFields(p) + s ==
      PutU32(p.instructionPc) + (PutU32(p.continuationPc) +
        (PutU32(p.textBuffer) + (PutU32(p.parseBuffer) + (PutU32(p.maxLength) + s))))
  {
    hide PutU32;
  }

  lemma PendingFieldsSound(b: seq<byte>)
    requires GetPendingFields(b).Got?
    ensures var r := GetPendingFields(b); PendingFits(r.value) && b == PutPendingFields(r.value) + r.rest
  {
    hide PutU32, GetU32, PutPendingFields;
    var Got(p, rest) := GetPendingFields(b);
    PendingFieldsTail(p, rest);
  }

  lemma PendingFieldsInverse(p: PendingRead, s: seq<byte>)
    requires PendingFits(p)
    ensures GetPendingFields(PutPendingFields(p) + s) == Got(p, s)
  {
    hide PutU32, GetU32, PutPendingFields;
    PendingFieldsTail(p, s);
    var t4 := PutU32(p.maxLength) + s;
    var t3 := PutU32(p.parseBuffer) + t4;
    var t2 := PutU32(p.textBuffer) + t3;
    var t1 := PutU32(p.continuationPc) + t2;
    U32Inverse(p.instructionPc, t1);
    U32Inverse(p.continuationPc, t2);
    U32Inverse(p.textBuffer, t3);
    U32Inverse(p.parseBuffer, t4);
    U32Inverse(p.maxLength, s);
  }

  function PutPending(p: PendingRead): (b: seq<byte>)
    requires PendingFits(p)
    ensures |b| == 24
  {
    PutReadKind() + PutPendingFields(p)
  }

  function GetPending(b: seq<byte>, byteLength: nat, memory: seq<byte>): (r: Parsed<PendingRead>) {
    var (_, b1) :- GetReadKind(b);
    var (p, b2) :- GetPendingFields(b1);
    if ValidPendingRead(p, byteLength, memory) then Got(p, b2) else NoParse
  }

  lemma PendingSound(b: seq<byte>, byteLength: nat, memory: seq<byte>)
    requires GetPending(b, byteLength, memory).Got?
    ensures var r := GetPending(b, byteLength, memory);
      ValidPendingRead(r.value, byteLength, memory) && PendingFits(r.value) && b == PutPending(r.value) + r.rest
  {
    hide PutReadKind, GetReadKind, PutPendingFields, GetPendingFields, ValidPendingRead, PendingFits;
    ReadKindSound(b);
    var b1 := GetReadKind(b).rest;
    PendingFieldsSound(b1);
    var Got(p, rest) := GetPendingFields(b1);
    assert PutReadKind() + (PutPendingFields(p) + rest) == (PutReadKind() + PutPendingFields(p)) + rest;
  }

  lemma PendingInverse(p: PendingRead, byteLength: nat, memory: seq<byte>, s: seq<byte>)
    requires ValidPendingRead(p, byteLength, memory) && PendingFits(p)
    ensures GetPending(PutPending(p) + s, byteLength, memory) == Got(p, s)
  {
    hide PutReadKind, GetReadKind, PutPendingFields, GetPendingFields, ValidPendingRead, PendingFits;
    assert PutPending(p) + s == PutReadKind() + (PutPendingFields(p) + s);
    ReadKindInverse(PutPendingFields(p) + s);
    PendingFieldsInverse(p, s);
  }

  lemma PendingFitsImage(p: PendingRead, story: StoryInfo, memory: seq<byte>)
    requires ValidStory(story) && |memory| == story.staticMemoryBase && ValidPendingRead(p, story.byteLength, memory)
    ensures PendingFits(p)
  {
  }

  // The machine, in three parts

  datatype ImagePart = ImagePart(story: StoryInfo, config: MachineConfig, memory: seq<byte>)
  {
    predicate Valid() {
      ValidStory(story) && ValidConfig(config) && |memory| == story.staticMemoryBase
    }
  }

  function PutImagePart(p: ImagePart): (b: seq<byte>)
    requires p.Valid()
    ensures |b| == 20 + SERIAL_BYTES + 24 + 4 + |p.memory|
  {
    PutStory(p.story) + (PutConfig(p.config) + PutMemory(p.memory))
  }

  function GetImagePart(b: seq<byte>): (r: Parsed<ImagePart>) {
    var (story, b1) :- GetStory(b);
    var (config, b2) :- GetConfig(b1);
    var (memory, b3) :- GetMemory(b2, story.staticMemoryBase);
    Got(ImagePart(story, config, memory), b3)
  }

  lemma ImagePartSound(b: seq<byte>)
    requires GetImagePart(b).Got?
    ensures var r := GetImagePart(b); r.value.Valid() && b == PutImagePart(r.value) + r.rest
  {
    hide PutStory, GetStory, PutConfig, GetConfig, PutMemory, GetMemory, ValidConfig;
    StorySound(b);
    var Got(story, b1) := GetStory(b);
    ConfigSound(b1);
    var Got(config, b2) := GetConfig(b1);
    MemorySound(b2, story.staticMemoryBase);
    var Got(memory, b3) := GetMemory(b2, story.staticMemoryBase);
    var x, y, z := PutStory(story), PutConfig(config), PutMemory(memory);
    assert x + (y + (z + b3)) == (x + (y + z)) + b3;
  }

  lemma ImagePartInverse(p: ImagePart, s: seq<byte>)
    requires p.Valid()
    ensures GetImagePart(PutImagePart(p) + s) == Got(p, s)
  {
    hide PutStory, GetStory, PutConfig, GetConfig, PutMemory, GetMemory, ValidConfig;
    var t2 := PutMemory(p.memory) + s;
    var t1 := PutConfig(p.config) + t2;
    assert PutImagePart(p) + s == PutStory(p.story) + t1;
    StoryInverse(p.story, t1);
    ConfigInverse(p.config, t2);
    MemoryInverse(p.memory, s);
  }

  datatype StackPart = StackPart(dataStack: seq<int>, callStack: seq<Frame>)
  {
    predicate Valid(byteLength: nat) {
      && |dataStack| <= MAX_STACK_WORDS && ValidWords(dataStack)
      && |callStack| <= MAX_CALL_FRAMES && ValidFrames(callStack, byteLength)
      && |dataStack| + FrameWords(callStack) <= MAX_STACK_WORDS
    }
  }

  function PutStackPart(p: StackPart, byteLength: nat): (b: seq<byte>)
    requires p.Valid(byteLength) && byteLength <= U32_MAX
    ensures |b| == 8 + 2 * |p.dataStack| + FramesBytes(p.callStack)
  {
    PutStack(p.dataStack) + PutCallStack(p.callStack, byteLength)
  }

  function GetStackPart(b: seq<byte>, byteLength: nat): (r: Parsed<StackPart>) {
    var (dataStack, b1) :- GetStack(b);
    var (callStack, b2) :- GetCallStack(b1, byteLength, |dataStack|);
    Got(StackPart(dataStack, callStack), b2)
  }

  lemma StackPartSound(b: seq<byte>, byteLength: nat)
    requires GetStackPart(b, byteLength).Got? && byteLength <= U32_MAX
    ensures var r := GetStackPart(b, byteLength);
      r.value.Valid(byteLength) && b == PutStackPart(r.value, byteLength) + r.rest
  {
    hide PutStack, GetStack, PutCallStack, GetCallStack, ValidWords, ValidFrames, FrameWords;
    StackSound(b);
    var Got(dataStack, b1) := GetStack(b);
    CallStackSound(b1, byteLength, |dataStack|);
    var Got(callStack, b2) := GetCallStack(b1, byteLength, |dataStack|);
    var x, y := PutStack(dataStack), PutCallStack(callStack, byteLength);
    assert x + (y + b2) == (x + y) + b2;
  }

  lemma StackPartInverse(p: StackPart, byteLength: nat, s: seq<byte>)
    requires p.Valid(byteLength) && byteLength <= U32_MAX
    ensures GetStackPart(PutStackPart(p, byteLength) + s, byteLength) == Got(p, s)
  {
    hide PutStack, GetStack, PutCallStack, GetCallStack, ValidWords, ValidFrames, FrameWords;
    var t := PutCallStack(p.callStack, byteLength) + s;
    assert PutStackPart(p, byteLength) + s == PutStack(p.dataStack) + t;
    StackInverse(p.dataStack, t);
    CallStackInverse(p.callStack, byteLength, |p.dataStack|, s);
  }

  datatype StatePart = StatePart(registers: Registers, streams: seq<Stream>, counts: Counts, pendingRead: PendingRead)
  {
    predicate Valid(i: ImagePart) {
      && ValidRegisters(registers, i.memory, i.story.byteSwapped)
      && |streams| <= MAX_STREAM_DEPTH && ValidStreams(streams, |i.memory|)
      && ValidCounts(counts, i.config)
      && ValidPendingRead(pendingRead, i.story.byteLength, i.memory)
    }
  }

  function PutStatePart(p: StatePart, i: ImagePart): (b: seq<byte>)
    requires i.Valid() && p.Valid(i)
    ensures |b| == 12 + 4 + 8 * |p.streams| + 16 + 24
  {
    PendingFitsImage(p.pendingRead, i.story, i.memory);
    PutRegisters(p.registers) + (PutStreams(p.streams, |i.memory|) + (PutCounts(p.counts) + PutPending(p.pendingRead)))
  }

  function GetStatePart(b: seq<byte>, i: ImagePart): (r: Parsed<StatePart>)
    requires i.Valid()
  {
    var (registers, b1) :- GetRegisters(b, i.memory, i.story.byteSwapped);
    var (streams, b2) :- GetStreams(b1, |i.memory|);
    var (counts, b3) :- GetCounts(b2, i.config);
    var (pendingRead, b4) :- GetPending(b3, i.story.byteLength, i.memory);
    Got(StatePart(registers, streams, counts, pendingRead), b4)
  }

  lemma StatePartSound(b: seq<byte>, i: ImagePart)
    requires i.Valid() && GetStatePart(b, i).Got?
    ensures var r := GetStatePart(b, i); r.value.Valid(i) && b == PutStatePart(r.value, i) + r.rest
  {
    hide PutRegisters, GetRegisters, PutStreams, GetStreams, PutCounts, GetCounts, PutPending, GetPending;
    hide ValidStreams, ValidPendingRead, ValidConfig, PendingFits, MemoryI16;
    RegistersSound(b, i.memory, i.story.byteSwapped);
    var Got(registers, b1) := GetRegisters(b, i.memory, i.story.byteSwapped);
    StreamsSound(b1, |i.memory|);
    var Got(streams, b2) := GetStreams(b1, |i.memory|);
    CountsSound(b2, i.config);
    var Got(counts, b3) := GetCounts(b2, i.config);
    PendingSound(b3, i.story.byteLength, i.memory);
    var Got(pendingRead, b4) := GetPending(b3, i.story.byteLength, i.memory);
    assert PutCounts(counts) + (PutPending(pendingRead) + b4) == (PutCounts(counts) + PutPending(pendingRead)) + b4;
    var y := PutCounts(counts) + PutPending(pendingRead);
    var w, x := PutRegisters(registers), PutStreams(streams, |i.memory|);
    assert w + (x + (y + b4)) == (w + (x + y)) + b4;
  }

  lemma StatePartInverse(p: StatePart, i: ImagePart, s: seq<byte>)
    requires i.Valid() && p.Valid(i)
    ensures GetStatePart(PutStatePart(p, i) + s, i) == Got(p, s)
  {
    hide PutRegisters, GetRegisters, PutStreams, GetStreams, PutCounts, GetCounts, PutPending, GetPending;
    hide ValidStreams, ValidConfig, PendingFits, MemoryI16;
    PendingFitsImage(p.pendingRead, i.story, i.memory);
    var t3 := PutPending(p.pendingRead) + s;
    var t2 := PutCounts(p.counts) + t3;
    var t1 := PutStreams(p.streams, |i.memory|) + t2;
    assert PutStatePart(p, i) + s == PutRegisters(p.registers) + t1;
    RegistersInverse(p.registers, i.memory, i.story.byteSwapped, t1);
    StreamsInverse(p.streams, |i.memory|, t2);
    CountsInverse(p.counts, i.config, t3);
    PendingInverse(p.pendingRead, i.story.byteLength, i.memory, s);
  }

  function ImageOfMachine(m: Checkpoint): ImagePart {
    ImagePart(m.story, m.config, m.dynamicMemory)
  }

  function StacksOf(m: Checkpoint): StackPart {
    StackPart(m.dataStack, m.callStack)
  }

  function StateOf(m: Checkpoint): StatePart {
    StatePart(m.registers, m.stream3, m.counts, m.pendingRead)
  }

  function Assemble(i: ImagePart, k: StackPart, s: StatePart): Checkpoint {
    Checkpoint(
      i.story, i.config, i.memory, k.dataStack, k.callStack, s.registers, s.streams, s.counts, s.pendingRead)
  }

  lemma ValidParts(m: Checkpoint)
    ensures ValidCheckpoint(m) <==>
      ImageOfMachine(m).Valid() && StacksOf(m).Valid(m.story.byteLength) && StateOf(m).Valid(ImageOfMachine(m))
  {
    hide ValidStory, ValidConfig, ValidWords, ValidFrames, FrameWords, ValidRegisters, ValidStreams, ValidCounts,
      ValidPendingRead;
  }

  function PutMachine(m: Checkpoint): (b: seq<byte>)
    requires ValidCheckpoint(m)
    ensures |b| == MachineBytes(m)
  {
    ValidParts(m);
    var i := ImageOfMachine(m);
    PutImagePart(i) + (PutStackPart(StacksOf(m), m.story.byteLength) + PutStatePart(StateOf(m), i))
  }

  /** The machine must end with the bytes. */
  function ParseMachine(b: seq<byte>): (r: Option<Checkpoint>) {
    match GetImagePart(b)
    case NoParse => None
    case Got(i, b1) =>
      ImagePartSound(b);
      match GetStackPart(b1, i.story.byteLength)
      case NoParse => None
      case Got(k, b2) =>
        match GetStatePart(b2, i)
        case NoParse => None
        case Got(s, b3) => if b3 != [] then None else Some(Assemble(i, k, s))
  }

  lemma MachineSound(b: seq<byte>)
    requires ParseMachine(b).Some?
    ensures ValidCheckpoint(ParseMachine(b).value) && b == PutMachine(ParseMachine(b).value)
  {
    hide PutImagePart, GetImagePart, PutStackPart, GetStackPart, PutStatePart, GetStatePart, ValidCheckpoint;
    hide ValidStory, ValidConfig, ValidWords, ValidFrames, FrameWords, ValidRegisters, ValidStreams, ValidCounts,
      ValidPendingRead;
    ImagePartSound(b);
    var Got(i, b1) := GetImagePart(b);
    assert i.story.byteLength <= U32_MAX by {
      StoryFits(i.story);
    }
    StackPartSound(b1, i.story.byteLength);
    var Got(k, b2) := GetStackPart(b1, i.story.byteLength);
    StatePartSound(b2, i);
    var Got(s, b3) := GetStatePart(b2, i);
    var m := Assemble(i, k, s);
    ValidParts(m);
    assert b2 == PutStatePart(s, i) + [] == PutStatePart(s, i);
  }

  lemma StoryFits(story: StoryInfo)
    requires ValidStory(story)
    ensures story.byteLength <= U32_MAX
  {
  }

  lemma MachineInverse(m: Checkpoint)
    requires ValidCheckpoint(m)
    ensures ParseMachine(PutMachine(m)) == Some(m)
  {
    hide PutImagePart, GetImagePart, PutStackPart, GetStackPart, PutStatePart, GetStatePart, ValidCheckpoint;
    hide ValidStory, ValidConfig, ValidWords, ValidFrames, FrameWords, ValidRegisters, ValidStreams, ValidCounts,
      ValidPendingRead;
    ValidParts(m);
    StoryFits(m.story);
    var i := ImageOfMachine(m);
    var t2 := PutStatePart(StateOf(m), i);
    var t1 := PutStackPart(StacksOf(m), m.story.byteLength) + t2;
    ImagePartInverse(i, t1);
    StackPartInverse(StacksOf(m), m.story.byteLength, t2);
    assert t2 + [] == t2;
    StatePartInverse(StateOf(m), i, []);
  }

  // The envelope

  function OriginOf(e: Envelope): Origin {
    Origin(e.artifactSha256, e.revision, e.lastOutput)
  }

  function Wire(ids: Identities, e: Envelope): (b: seq<byte>)
    requires ValidIdentities(ids) && ValidEnvelope(e)
    ensures |b| == TotalBytes(ids, e) < MAX_TOTAL_BYTES
  {
    hide ValidCheckpoint, Utf8.Encode;
    CapsCompose(ids, e);
    PutPrologue(TotalBytes(ids, e))
    + (PutIdentities(ids, e.storyId) + (PutOrigin(OriginOf(e)) + PutMachine(e.machine)))
  }

  function Parse(ids: Identities, b: seq<byte>): (r: Option<Envelope>) {
    if |b| > MAX_TOTAL_BYTES then None
    else
      match GetPrologue(b)
      case NoParse => None
      case Got(total, b1) =>
      if total != |b| then None
      else
        match GetIdentities(ids, b1)
        case NoParse => None
        case Got(storyId, b2) =>
        match GetOrigin(b2)
        case NoParse => None
        case Got(o, b3) =>
          var m :- ParseMachine(b3);
          Some(Envelope(storyId, o.artifactSha256, o.revision, o.lastOutput, m))
  }

  /** Whatever is accepted is the encoding of the checkpoint it is decoded to. */
  lemma ParseSound(ids: Identities, b: seq<byte>)
    requires ValidIdentities(ids) && Parse(ids, b).Some?
    ensures ValidEnvelope(Parse(ids, b).value) && b == Wire(ids, Parse(ids, b).value)
  {
    hide PutPrologue, GetPrologue, PutIdentities, GetIdentities, PutOrigin, GetOrigin, PutMachine, ParseMachine;
    hide ValidCheckpoint, Utf8.Encode, FramesBytes, HeaderBytes, MachineBytes;
    PrologueSound(b);
    var Got(total, b1) := GetPrologue(b);
    IdentitiesSound(ids, b1);
    var Got(storyId, b2) := GetIdentities(ids, b1);
    OriginSound(b2);
    var Got(o, b3) := GetOrigin(b2);
    MachineSound(b3);
    assert o == OriginOf(Parse(ids, b).value);
    TotalIsLength(ids, Parse(ids, b).value);
  }

  lemma TotalIsLength(ids: Identities, e: Envelope)
    requires ValidIdentities(ids) && ValidEnvelope(e)
    ensures TotalBytes(ids, e) ==
      16 + |PutIdentities(ids, e.storyId)| + |PutOrigin(OriginOf(e))| + |PutMachine(e.machine)|
  {
    hide ValidCheckpoint, Utf8.Encode, FramesBytes, PutShort, HexToBytes;
  }

  /** Decoding what was encoded gives back the checkpoint. */
  lemma EnvelopeInverse(ids: Identities, e: Envelope)
    requires ValidIdentities(ids) && ValidEnvelope(e)
    ensures Parse(ids, Wire(ids, e)) == Some(e)
  {
    hide PutPrologue, GetPrologue, PutIdentities, GetIdentities, PutOrigin, GetOrigin, PutMachine, ParseMachine;
    hide ValidCheckpoint, Utf8.Encode, TotalBytes;
    CapsCompose(ids, e);
    var t3 := PutMachine(e.machine);
    var t2 := PutOrigin(OriginOf(e)) + t3;
    var t1 := PutIdentities(ids, e.storyId) + t2;
    PrologueInverse(TotalBytes(ids, e), t1);
    IdentitiesInverse(ids, e.storyId, t2);
    OriginInverse(OriginOf(e), t3);
    MachineInverse(e.machine);
  }

  /** The codec is canonical: accepted bytes are exactly the encodings of valid checkpoints. */
  lemma Canonical(ids: Identities, b: seq<byte>, e: Envelope)
    requires ValidIdentities(ids)
    ensures Parse(ids, b) == Some(e) <==> ValidEnvelope(e) && b == Wire(ids, e)
  {
    hide Parse, Wire, ValidEnvelope;
    if Parse(ids, b) == Some(e) {
      ParseSound(ids, b);
    } else if ValidEnvelope(e) && b == Wire(ids, e) {
      EnvelopeInverse(ids, e);
    }
  }
}
