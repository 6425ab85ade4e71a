/**
 The checkpoint wire format: the saved state of the interpreter, what bytes it
 has, and what the parser makes of bytes. `Parse` accepts exactly the image of
 `Wire` on valid envelopes.
 */
module CheckpointFormat {
  import opened Wrappers
  import opened Bytes
  import opened Journal
  import Messages

  const MAGIC: seq<byte> := [0x5A, 0x56, 0x44, 0x4F, 0x52, 0x4B, 0x43, 0x50]
  const SCHEMA_VERSION: nat := 2
  const MACHINE_SCHEMA_VERSION: nat := 2
  const MAX_TOTAL_BYTES: nat := 1024 * 1024
  const MAX_STORY_ID_BYTES: nat := 128
  const MAX_IDENTITY_BYTES: nat := 128
  const MAX_CALL_FRAMES: nat := 1024
  const MAX_STACK_WORDS: nat := 65_535
  const MAX_FRAME_STACK_WORDS: nat := 4096
  const MAX_LOCALS: nat := 15
  const MAX_STREAM_DEPTH: nat := 16
  const SERIAL_BYTES: nat := 6
  const STORY_VERSION: nat := 3
  const READ_OPCODE: nat := 228
  const U16_MAX: nat := 0xFFFF
  const U32_MAX: nat := 0xFFFF_FFFF

  /** Who wrote a checkpoint, and in which layout. */
  datatype Identities = Identities(runtimeId: string, adapterId: string)

  /** The commit that the interpreter was taken from. */
  const SOURCE_COMMIT: string := "e5fce5ca678660611b5d2daa94bbffdb3a84e622"
  /** The digest of the interpreter as changed, in its two halves of 128 bits. */
  const FORK_SHA256: string := "a0a31ec97a78771229615c4311ea4209" + "813e29a65df421f0e020b161447f1605"
  const RUNTIME_ID: string := "dork-" + SOURCE_COMMIT + "-fork-" + FORK_SHA256
  const ADAPTER_ID: string := "zork-voice-dork-checkpoint-v2"
  const DORK: Identities := Identities(RUNTIME_ID, ADAPTER_ID)

  predicate ValidIdentities(ids: Identities) {
    && 0 < TextBytes(ids.runtimeId) <= MAX_IDENTITY_BYTES
    && 0 < TextBytes(ids.adapterId) <= MAX_IDENTITY_BYTES
  }

  datatype StoryInfo = StoryInfo(
    byteSwapped: bool, release: nat, serial: string, checksum: nat, byteLength: nat, staticMemoryBase: nat)

  datatype MachineConfig = MachineConfig(
    isTandy: bool, strict: bool, maxInstructions: Option<nat>, maxInstructionsPerTurn: nat, ioCapabilities: nat)

  datatype Frame = Frame(pc: nat, locals: seq<int>, ds: seq<int>, discardResult: bool, argCount: nat)

  datatype Stream = Stream(base: nat, cursor: nat)

  datatype PendingRead = PendingRead(
    instructionPc: nat, continuationPc: nat, textBuffer: nat, parseBuffer: nat, maxLength: nat)

  datatype Registers = Registers(gameplayState: nat, reseedState: nat, savedFlags: int, rngMode: nat)

  datatype Counts = Counts(instructionCount: nat, turnInstructionCount: nat)

  datatype Checkpoint = Checkpoint(
    story: StoryInfo,
    config: MachineConfig,
    dynamicMemory: seq<byte>,
    dataStack: seq<int>,
    callStack: seq<Frame>,
    registers: Registers,
    stream3: seq<Stream>,
    counts: Counts,
    pendingRead: PendingRead)

  datatype Envelope = Envelope(
    storyId: string, artifactSha256: string, revision: nat, lastOutput: string, machine: Checkpoint)

  // What a valid checkpoint is

  predicate IsInt16(w: int) {
    -0x8000 <= w < 0x8000
  }

  predicate IsAscii(s: string) {
    forall i :: 0 <= i < |s| ==> s[i] as int < 0x80
  }

  predicate ValidStory(s: StoryInfo) {
    && s.release <= U16_MAX && |s.serial| == SERIAL_BYTES && IsAscii(s.serial) && s.checksum <= U16_MAX
    && 64 <= s.byteLength <= U32_MAX
    && 64 <= s.staticMemoryBase <= s.byteLength && s.staticMemoryBase <= U16_MAX
  }

  predicate ValidConfig(c: MachineConfig) {
    && (c.maxInstructions.Some? ==> 1 <= c.maxInstructions.value <= MAX_SAFE)
    && 1 <= c.maxInstructionsPerTurn <= MAX_SAFE && c.ioCapabilities <= U32_MAX
  }

  predicate ValidWords(ws: seq<int>) {
    forall i :: 0 <= i < |ws| ==> IsInt16(ws[i])
  }

  predicate ValidFrame(f: Frame, byteLength: nat) {
    && f.pc < byteLength && |f.locals| <= MAX_LOCALS && |f.ds| <= MAX_FRAME_STACK_WORDS && f.argCount <= 7
    && ValidWords(f.locals) && ValidWords(f.ds)
  }

  predicate ValidFrames(fs: seq<Frame>, byteLength: nat) {
    forall i :: 0 <= i < |fs| ==> ValidFrame(fs[i], byteLength)
  }

  function FrameWords(fs: seq<Frame>): nat {
    if fs == [] then 0 else |fs[0].locals| + |fs[0].ds| + FrameWords(fs[1..])
  }

  /** A 16-bit word of memory in the story's byte order, as a signed number. */
  function MemoryI16(memory: seq<byte>, at: nat, swapped: bool): (w: int)
    requires at + 2 <= |memory|
    ensures IsInt16(w)
  {
    var high: int, low: int := memory[if swapped then at + 1 else at], memory[if swapped then at else at + 1];
    var v := high * 0x100 + low;
    if v < 0x8000 then v else v - 0x1_0000
  }

  predicate ValidRegisters(r: Registers, memory: seq<byte>, swapped: bool) {
    && r.gameplayState <= U32_MAX && r.reseedState <= U32_MAX && r.rngMode <= 1
    && IsInt16(r.savedFlags)
    && 18 <= |memory| && MemoryI16(memory, 16, swapped) == r.savedFlags
  }

  predicate ValidStream(s: Stream, memoryLength: nat) {
    s.base + 2 <= s.cursor <= memoryLength
  }

  predicate ValidStreams(ss: seq<Stream>, memoryLength: nat) {
    forall i :: 0 <= i < |ss| ==> ValidStream(ss[i], memoryLength)
  }

  predicate ValidCounts(n: Counts, c: MachineConfig) {
    && n.instructionCount <= MAX_SAFE && n.turnInstructionCount <= MAX_SAFE
    && (c.maxInstructions.Some? ==>
      n.turnInstructionCount <= n.instructionCount <= c.maxInstructions.value)
    && n.turnInstructionCount <= c.maxInstructionsPerTurn
  }

  /** The space that the parse buffer declares for tokens fits the memory. */
  predicate ParseBufferFits(memory: seq<byte>, at: nat) {
    && 0 < at < |memory|
    && var tokens: int := memory[at];
      at + 2 + tokens * 4 <= |memory|
  }

  predicate ValidPendingRead(p: PendingRead, byteLength: nat, memory: seq<byte>) {
    && p.instructionPc < p.continuationPc < byteLength
    && p.textBuffer < |memory|
    && 1 <= p.maxLength <= 0xFF
    && (p.instructionPc < |memory| ==> memory[p.instructionPc] == READ_OPCODE)
    && memory[p.textBuffer] == p.maxLength
    && p.textBuffer + p.maxLength + 1 <= |memory|
    && ParseBufferFits(memory, p.parseBuffer)
  }

  predicate ValidStacks(m: Checkpoint) {
    && |m.dataStack| <= MAX_STACK_WORDS && ValidWords(m.dataStack)
    && |m.callStack| <= MAX_CALL_FRAMES && ValidFrames(m.callStack, m.story.byteLength)
    && |m.dataStack| + FrameWords(m.callStack) <= MAX_STACK_WORDS
  }

  predicate ValidCheckpoint(m: Checkpoint) {
    && ValidStory(m.story) && ValidConfig(m.config)
    && |m.dynamicMemory| == m.story.staticMemoryBase
    && ValidStacks(m)
    && ValidRegisters(m.registers, m.dynamicMemory, m.story.byteSwapped)
    && |m.stream3| <= MAX_STREAM_DEPTH && ValidStreams(m.stream3, |m.dynamicMemory|)
    && ValidCounts(m.counts, m.config)
    && ValidPendingRead(m.pendingRead, m.story.byteLength, m.dynamicMemory)
  }

  predicate ValidEnvelope(e: Envelope) {
    && 0 < TextBytes(e.storyId) <= MAX_STORY_ID_BYTES
    && Messages.IsSha256(e.artifactSha256)
    && e.revision <= MAX_SAFE
    && TextBytes(e.lastOutput) <= MAX_OUTPUT_BYTES
    && ValidCheckpoint(e.machine)
  }

  // Sizes

  function FrameBytes(f: Frame): nat {
    12 + 2 * (|f.locals| + |f.ds|)
  }

  function FramesBytes(fs: seq<Frame>): nat {
    if fs == [] then 0 else FrameBytes(fs[0]) + FramesBytes(fs[1..])
  }

  function HeaderBytes(ids: Identities, e: Envelope): nat {
    16 + (2 + TextBytes(ids.runtimeId)) + (2 + TextBytes(ids.adapterId)) + (2 + TextBytes(e.storyId))
    + 40 + (4 + TextBytes(e.lastOutput))
  }

  function MachineBytes(m: Checkpoint): nat {
    4 + (16 + SERIAL_BYTES) + 24 + (4 + |m.dynamicMemory|) + (4 + 2 * |m.dataStack|) + (4 + FramesBytes(m.callStack))
    + 12 + (4 + 8 * |m.stream3|) + 16 + 24
  }

  function TotalBytes(ids: Identities, e: Envelope): nat {
    HeaderBytes(ids, e) + MachineBytes(e.machine)
  }

  lemma {:induction false} FramesBytesByWords(fs: seq<Frame>)
    ensures FramesBytes(fs) == 12 * |fs| + 2 * FrameWords(fs)
    decreases |fs|
  {
    if fs != [] {
      FramesBytesByWords(fs[1..]);
    }
  }

  /** The per-field limits keep every checkpoint under the total limit, so that guard never fires. */
  lemma CapsCompose(ids: Identities, e: Envelope)
    requires ValidIdentities(ids) && ValidEnvelope(e)
    ensures TotalBytes(ids, e) < MAX_TOTAL_BYTES
  {
    hide ValidRegisters, ValidPendingRead, ValidCounts, ValidStreams, ValidFrames, ValidWords, TextBytes, FramesBytes,
      FrameWords;
    FramesBytesByWords(e.machine.callStack);
  }

  // Hexadecimal digests

  function HexDigit(n: nat): (c: char)
    requires n < 16
    ensures Messages.IsHexDigit(c)
  {
    if n < 10 then '0' + n as char else 'a' + (n - 10) as char
  }

  function HexValue(c: char): (n: nat)
    requires Messages.IsHexDigit(c)
    ensures n < 16 && HexDigit(n) == c
  {
    if c <= '9' then (c - '0') as nat else (c - 'a') as nat + 10
  }

  function BytesToHex(b: seq<byte>): (s: string)
    ensures |s| == 2 * |b|
    ensures forall i :: 0 <= i < |s| ==> Messages.IsHexDigit(s[i])
  {
    if b == [] then ""
    else
      var v: int := b[0];
      [HexDigit(v / 16), HexDigit(v % 16)] + BytesToHex(b[1..])
  }

  function HexToBytes(s: string): (b: seq<byte>)
    requires |s| % 2 == 0 && forall i :: 0 <= i < |s| ==> Messages.IsHexDigit(s[i])
    ensures |s| == 2 * |b|
    ensures BytesToHex(b) == s
  {
    if s == "" then []
    else
      var high, low := HexValue(s[0]), HexValue(s[1]);
      var rest := HexToBytes(s[2..]);
      assert s == [s[0], s[1]] + s[2..];
      assert (high * 16 + low) / 16 == high && (high * 16 + low) % 16 == low;
      assert ([high * 16 + low] + rest)[1..] == rest;
      [high * 16 + low] + rest
  }

  lemma {:induction false} BytesToHexInjective(b: seq<byte>, b': seq<byte>)
    requires BytesToHex(b) == BytesToHex(b')
    ensures b == b'
  {
    assert |b| == |b'|;
    if b != [] {
      var s, s' := BytesToHex(b), BytesToHex(b');
      assert s[2..] == BytesToHex(b[1..]) && s'[2..] == BytesToHex(b'[1..]);
      var v: int, v': int := b[0], b'[0];
      assert s[0] == HexDigit(v / 16) && s[1] == HexDigit(v % 16);
      assert s'[0] == HexDigit(v' / 16) && s'[1] == HexDigit(v' % 16);
      BytesToHexInjective(b[1..], b'[1..]);
    }
  }
}
