/** The machine checkpoint byte by byte: every field at its offset, by its value. */
module CheckpointLayout {
  import opened Wrappers
  import opened Bytes
  import opened ByteLayout
  import opened Journal
  import opened CheckpointFormat
  import opened CheckpointWire
  import opened CheckpointStacks
  import opened CheckpointParse
  import Messages
  import Utf8

  const HEX_DIGITS: string := "0123456789abcdef"

  predicate FlagByte(v: byte, f: bool) {
    v == if f then 1 else 0
  }

  /** "ZVDORKCP", version 2, and the number of all bytes. */
  predicate PrologueLaid(b: seq<byte>) {
    && |b| >= 16
    && b[..8] == [0x5A, 0x56, 0x44, 0x4F, 0x52, 0x4B, 0x43, 0x50]
    && b[8] == 0 && b[9] == 2 && b[10] == 0 && b[11] == 0
    && Big32(b, 12) == |b|
  }

  /** A text with its length in front of it. */
  predicate ShortLaid(b: seq<byte>, at: nat, text: string) {
    && at + 2 <= |b|
    && Big16(b, at) == |Utf8.Encode(text)|
    && At(b, at + 2, Utf8.Encode(text))
  }

  /** The 32 bytes of a digest, each two of its hexadecimal digits, the high one first. */
  predicate DigestLaid(b: seq<byte>, at: nat, digest: string) {
    && |digest| == 64 && at + 32 <= |b|
    && forall i :: 0 <= i < 32 ==>
      digest[2 * i] == HEX_DIGITS[b[at + i] / 16] && digest[2 * i + 1] == HEX_DIGITS[b[at + i] % 16]
  }

  /** Where the machine begins: behind the three identities, the digest, the revision and the last output. */
  function MachineAt(ids: Identities, e: Envelope): nat {
    66 + TextBytes(ids.runtimeId) + TextBytes(ids.adapterId) + TextBytes(e.storyId) + TextBytes(e.lastOutput)
  }

  predicate HeaderLaid(b: seq<byte>, ids: Identities, e: Envelope) {
    var r, a, s := TextBytes(ids.runtimeId), TextBytes(ids.adapterId), TextBytes(e.storyId);
    && MachineAt(ids, e) <= |b|
    && ShortLaid(b, 16, ids.runtimeId)
    && ShortLaid(b, 18 + r, ids.adapterId)
    && ShortLaid(b, 20 + r + a, e.storyId)
    && DigestLaid(b, 22 + r + a + s, e.artifactSha256)
    && Big64(b, 54 + r + a + s) == e.revision
    && Big32(b, 62 + r + a + s) == TextBytes(e.lastOutput)
    && At(b, 66 + r + a + s, Utf8.Encode(e.lastOutput))
  }

  /** Machine schema 2, story version 3, and what the story file is. */
  predicate StoryLaid(b: seq<byte>, at: nat, s: StoryInfo) {
    && at + 26 <= |b|
    && b[at] == 0 && b[at + 1] == 2 && b[at + 2] == 0 && b[at + 3] == 0
    && b[at + 4] == 3 && FlagByte(b[at + 5], s.byteSwapped)
    && Big16(b, at + 6) == s.release
    && b[at + 8] == 6 && b[at + 9] == 0
    && Big16(b, at + 10) == s.checksum
    && Big32(b, at + 12) == s.byteLength
    && Big32(b, at + 16) == s.staticMemoryBase
    && At(b, at + 20, Utf8.Encode(s.serial))
  }

  predicate ConfigLaid(b: seq<byte>, at: nat, c: MachineConfig) {
    && at + 24 <= |b|
    && FlagByte(b[at], c.isTandy) && FlagByte(b[at + 1], c.strict) && FlagByte(b[at + 2], c.maxInstructions.Some?)
    && b[at + 3] == 0
    && Big64(b, at + 4) == (if c.maxInstructions.Some? then c.maxInstructions.value else 0)
    && Big64(b, at + 12) == c.maxInstructionsPerTurn
    && Big32(b, at + 20) == c.ioCapabilities
  }

  predicate WordLaid(b: seq<byte>, at: nat, w: int) {
    at + 2 <= |b| && Big16(b, at) == if w < 0 then w + 0x1_0000 else w
  }

  predicate WordsLaid(b: seq<byte>, at: nat, ws: seq<int>) {
    at + 2 * |ws| <= |b| && forall i {:trigger ws[i]} :: 0 <= i < |ws| ==> WordLaid(b, at + 2 * i, ws[i])
  }

  predicate FrameLaid(b: seq<byte>, at: nat, f: Frame) {
    && at + 12 <= |b|
    && Big32(b, at) == f.pc
    && b[at + 4] as int == |f.locals| && FlagByte(b[at + 5], f.discardResult)
    && b[at + 6] as int == f.argCount && b[at + 7] == 0
    && Big32(b, at + 8) == |f.ds|
    && WordsLaid(b, at + 12, f.locals)
    && WordsLaid(b, at + 12 + 2 * |f.locals|, f.ds)
  }

  predicate FramesLaid(b: seq<byte>, at: nat, fs: seq<Frame>)
    decreases |fs|
  {
    fs == [] ||
    (FrameLaid(b, at, fs[0]) && FramesLaid(b, at + 12 + 2 * |fs[0].locals| + 2 * |fs[0].ds|, fs[1..]))
  }

  predicate RegistersLaid(b: seq<byte>, at: nat, r: Registers) {
    && at + 12 <= |b|
    && Big32(b, at) == r.gameplayState && Big32(b, at + 4) == r.reseedState
    && WordLaid(b, at + 8, r.savedFlags) && b[at + 10] as int == r.rngMode && b[at + 11] == 0
  }

  predicate StreamLaid(b: seq<byte>, at: nat, x: Stream) {
    at + 8 <= |b| && Big32(b, at) == x.base && Big32(b, at + 4) == x.cursor
  }

  predicate StreamsLaid(b: seq<byte>, at: nat, xs: seq<Stream>) {
    at + 8 * |xs| <= |b| && forall i {:trigger xs[i]} :: 0 <= i < |xs| ==> StreamLaid(b, at + 8 * i, xs[i])
  }

  predicate PendingLaid(b: seq<byte>, at: nat, p: PendingRead) {
    && at + 24 <= |b|
    && b[at] == 1 && b[at + 1] == 0 && b[at + 2] == 0 && b[at + 3] == 0
    && Big32(b, at + 4) == p.instructionPc && Big32(b, at + 8) == p.continuationPc
    && Big32(b, at + 12) == p.textBuffer && Big32(b, at + 16) == p.parseBuffer && Big32(b, at + 20) == p.maxLength
  }

  /** The story, the configuration and the memory, from where the machine begins. */
  predicate ImageLaid(b: seq<byte>, at: nat, m: Checkpoint) {
    && StoryLaid(b, at, m.story) && ConfigLaid(b, at + 26, m.config)
    && at + 54 <= |b|
    && Big32(b, at + 50) == |m.dynamicMemory|
    && At(b, at + 54, m.dynamicMemory)
  }

  predicate StacksLaid(b: seq<byte>, at: nat, m: Checkpoint) {
    && at + 8 + 2 * |m.dataStack| <= |b|
    && Big32(b, at) == |m.dataStack|
    && WordsLaid(b, at + 4, m.dataStack)
    && Big32(b, at + 4 + 2 * |m.dataStack|) == |m.callStack|
    && FramesLaid(b, at + 8 + 2 * |m.dataStack|, m.callStack)
  }

  /** Registers, streams, counts and the pending read, at the very end. */
  predicate StateLaid(b: seq<byte>, m: Checkpoint) {
    var n := |m.stream3|;
    && 56 + 8 * n <= |b|
    && RegistersLaid(b, |b| - 56 - 8 * n, m.registers)
    && Big32(b, |b| - 44 - 8 * n) == n
    && StreamsLaid(b, |b| - 40 - 8 * n, m.stream3)
    && Big64(b, |b| - 40) == m.counts.instructionCount
    && Big64(b, |b| - 32) == m.counts.turnInstructionCount
    && PendingLaid(b, |b| - 24, m.pendingRead)
  }

  /** Where the frames that begin at `at` end. */
  function FramesEnd(at: nat, fs: seq<Frame>): nat
    decreases |fs|
  {
    if fs == [] then at else FramesEnd(at + 12 + 2 * |fs[0].locals| + 2 * |fs[0].ds|, fs[1..])
  }

  /** Nothing stands between the frames and the state, and nothing behind it. */
  predicate EndLaid(b: seq<byte>, at: nat, m: Checkpoint) {
    |b| == FramesEnd(at + 62 + |m.dynamicMemory| + 2 * |m.dataStack|, m.callStack) + 56 + 8 * |m.stream3|
  }

  predicate Laid(b: seq<byte>, ids: Identities, e: Envelope) {
    var at := MachineAt(ids, e);
    && EndLaid(b, at, e.machine)
    && PrologueLaid(b) && HeaderLaid(b, ids, e)
    && ImageLaid(b, at, e.machine)
    && StacksLaid(b, at + 54 + |e.machine.dynamicMemory|, e.machine)
    && StateLaid(b, e.machine)
  }

  // The parts are laid out so

  lemma SmallU16(b: seq<byte>, at: nat)
    requires at + 2 <= |b| && Big16(b, at) < 256
    ensures b[at] == 0 && b[at + 1] as int == Big16(b, at)
  {
  }

  lemma PutPrologueLaid(b: seq<byte>, total: nat)
    requires total < U32_FACTOR && At(b, 0, PutPrologue(total)) && total == |b|
    ensures PrologueLaid(b)
  {
    hide PutU16, PutU32, At, Big32;
    var t2 := PutU16(0) + PutU32(total);
    Split(b, 0, MAGIC, PutU16(SCHEMA_VERSION) + t2);
    Split(b, 8, PutU16(SCHEMA_VERSION), t2);
    Split(b, 10, PutU16(0), PutU32(total));
    Inside(b, 12, PutU32(total));
    U16At(b, 8, SCHEMA_VERSION);
    U16At(b, 10, 0);
    U32At(b, 12, total);
    MagicAt(b);
    SmallU16(b, 8);
    SmallU16(b, 10);
  }

  lemma MagicAt(b: seq<byte>)
    requires At(b, 0, MAGIC)
    ensures |b| >= 8 && b[..8] == [0x5A, 0x56, 0x44, 0x4F, 0x52, 0x4B, 0x43, 0x50]
  {
    assert b[0..8] == b[..8];
  }

  lemma PutShortLaid(b: seq<byte>, at: nat, text: string)
    requires TextBytes(text) < 0x1_0000 && At(b, at, PutShort(text))
    ensures ShortLaid(b, at, text)
  {
    hide PutU16, At, Big16, Utf8.Encode;
    Split(b, at, PutU16(TextBytes(text)), Utf8.Encode(text));
    Inside(b, at, PutU16(TextBytes(text)));
    U16At(b, at, TextBytes(text));
  }

  lemma HexDigits(n: nat)
    requires n < 16
    ensures HexDigit(n) == HEX_DIGITS[n]
  {
    assert HEX_DIGITS[0] == '0' && HEX_DIGITS[1] == '1' && HEX_DIGITS[2] == '2' && HEX_DIGITS[3] == '3';
    assert HEX_DIGITS[4] == '4' && HEX_DIGITS[5] == '5' && HEX_DIGITS[6] == '6' && HEX_DIGITS[7] == '7';
    assert HEX_DIGITS[8] == '8' && HEX_DIGITS[9] == '9' && HEX_DIGITS[10] == 'a' && HEX_DIGITS[11] == 'b';
    assert HEX_DIGITS[12] == 'c' && HEX_DIGITS[13] == 'd' && HEX_DIGITS[14] == 'e' && HEX_DIGITS[15] == 'f';
  }

  lemma {:induction false} HexPairs(b: seq<byte>, i: nat)
    requires i < |b|
    ensures BytesToHex(b)[2 * i] == HEX_DIGITS[b[i] / 16] && BytesToHex(b)[2 * i + 1] == HEX_DIGITS[b[i] % 16]
    decreases i
  {
    if i == 0 {
      HexDigits(b[0] / 16);
      HexDigits(b[0] % 16);
    } else {
      HexPairs(b[1..], i - 1);
    }
  }

  lemma DigestAt(b: seq<byte>, at: nat, digest: string)
    requires Messages.IsSha256(digest) && At(b, at, HexToBytes(digest))
    ensures DigestLaid(b, at, digest)
  {
    var part := HexToBytes(digest);
    ElementsAt(b, at, part);
    forall i | 0 <= i < 32
      ensures digest[2 * i] == HEX_DIGITS[b[at + i] / 16] && digest[2 * i + 1] == HEX_DIGITS[b[at + i] % 16]
    {
      HexPairs(part, i);
      assert b[at + i] == part[i];
    }
  }

  lemma PutIdentitiesLaid(b: seq<byte>, ids: Identities, storyId: string)
    requires ValidIdentities(ids) && TextBytes(storyId) <= MAX_STORY_ID_BYTES && At(b, 16, PutIdentities(ids, storyId))
    ensures var r, a := TextBytes(ids.runtimeId), TextBytes(ids.adapterId);
      ShortLaid(b, 16, ids.runtimeId) && ShortLaid(b, 18 + r, ids.adapterId) && ShortLaid(b, 20 + r + a, storyId)
  {
    hide PutShort, At, ShortLaid, Utf8.Encode;
    var r, a := TextBytes(ids.runtimeId), TextBytes(ids.adapterId);
    Split(b, 16, PutShort(ids.runtimeId), PutShort(ids.adapterId) + PutShort(storyId));
    Split(b, 18 + r, PutShort(ids.adapterId), PutShort(storyId));
    PutShortLaid(b, 16, ids.runtimeId);
    PutShortLaid(b, 18 + r, ids.adapterId);
    PutShortLaid(b, 20 + r + a, storyId);
  }

  lemma PutOriginLaid(b: seq<byte>, at: nat, o: Origin)
    requires o.Fits() && At(b, at, PutOrigin(o))
    ensures at + 44 <= |b| && DigestLaid(b, at, o.artifactSha256)
    ensures Big64(b, at + 32) == o.revision && Big32(b, at + 40) == TextBytes(o.lastOutput)
    ensures At(b, at + 44, Utf8.Encode(o.lastOutput))
  {
    hide PutU64, PutU32, At, Big32, Big64, Utf8.Encode, HexToBytes, DigestLaid;
    var n := TextBytes(o.lastOutput);
    var t2 := PutU32(n) + Utf8.Encode(o.lastOutput);
    Split(b, at, HexToBytes(o.artifactSha256), PutU64(o.revision) + t2);
    Split(b, at + 32, PutU64(o.revision), t2);
    Split(b, at + 40, PutU32(n), Utf8.Encode(o.lastOutput));
    Inside(b, at + 40, PutU32(n));
    DigestAt(b, at, o.artifactSha256);
    U64At(b, at + 32, o.revision);
    U32At(b, at + 40, n);
  }

  lemma PutReleaseLaid(b: seq<byte>, at: nat, swapped: bool, release: nat)
    requires release <= U16_MAX && At(b, at, PutRelease(swapped, release))
    ensures at + 8 <= |b| && b[at] == 0 && b[at + 1] == 2 && b[at + 2] == 0 && b[at + 3] == 0
    ensures b[at + 4] == 3 && FlagByte(b[at + 5], swapped) && Big16(b, at + 6) == release
  {
    hide PutU8, PutU16, At;
    var t3 := PutFlag(swapped) + PutU16(release);
    var t2 := PutU8(STORY_VERSION) + t3;
    var t1 := PutU16(0) + t2;
    Split(b, at, PutU16(MACHINE_SCHEMA_VERSION), t1);
    Split(b, at + 2, PutU16(0), t2);
    Split(b, at + 4, PutU8(STORY_VERSION), t3);
    Split(b, at + 5, PutFlag(swapped), PutU16(release));
    Inside(b, at + 6, PutU16(release));
    U16At(b, at, MACHINE_SCHEMA_VERSION);
    U16At(b, at + 2, 0);
    U8At(b, at + 4, STORY_VERSION);
    U8At(b, at + 5, if swapped then 1 else 0);
    U16At(b, at + 6, release);
    SmallU16(b, at);
    SmallU16(b, at + 2);
  }

  lemma PutImageLaid(b: seq<byte>, at: nat, i: Image)
    requires i.Fits() && At(b, at, PutImage(i))
    ensures at + 12 <= |b| && b[at] as int == i.serialLength && b[at + 1] == 0 && Big16(b, at + 2) == i.checksum
    ensures Big32(b, at + 4) == i.byteLength && Big32(b, at + 8) == i.staticMemoryBase
  {
    hide PutU8, PutU16, PutU32, At, Big16, Big32;
    var t3 := PutU32(i.byteLength) + PutU32(i.staticMemoryBase);
    var t2 := PutU16(i.checksum) + t3;
    var t1 := PutU8(0) + t2;
    Split(b, at, PutU8(i.serialLength), t1);
    Split(b, at + 1, PutU8(0), t2);
    Split(b, at + 2, PutU16(i.checksum), t3);
    Split(b, at + 4, PutU32(i.byteLength), PutU32(i.staticMemoryBase));
    Inside(b, at + 8, PutU32(i.staticMemoryBase));
    U8At(b, at, i.serialLength);
    U8At(b, at + 1, 0);
    U16At(b, at + 2, i.checksum);
    U32At(b, at + 4, i.byteLength);
    U32At(b, at + 8, i.staticMemoryBase);
  }

  lemma PutStoryLaid(b: seq<byte>, at: nat, s: StoryInfo)
    requires ValidStory(s) && At(b, at, PutStory(s))
    ensures StoryLaid(b, at, s)
  {
    hide PutRelease, PutImage, At, Big16, Big32, Utf8.Encode, FlagByte, IsAscii;
    AsciiLength(s.serial);
    Split(b, at, PutRelease(s.byteSwapped, s.release), PutImage(ImageOf(s)) + Utf8.Encode(s.serial));
    Split(b, at + 8, PutImage(ImageOf(s)), Utf8.Encode(s.serial));
    Inside(b, at + 20, Utf8.Encode(s.serial));
    PutReleaseLaid(b, at, s.byteSwapped, s.release);
    PutImageLaid(b, at + 8, ImageOf(s));
  }

  lemma PutConfigLaid(b: seq<byte>, at: nat, c: MachineConfig)
    requires ValidConfig(c) && At(b, at, PutConfig(c))
    ensures ConfigLaid(b, at, c)
  {
    hide PutU64, PutU32, At, Big64, Big32, FlagByte;
    var t2 := PutU64(c.maxInstructionsPerTurn) + PutU32(c.ioCapabilities);
    Split(b, at, PutFlags(c), PutU64(PayloadOf(c)) + t2);
    Split(b, at + 4, PutU64(PayloadOf(c)), t2);
    Split(b, at + 12, PutU64(c.maxInstructionsPerTurn), PutU32(c.ioCapabilities));
    Inside(b, at + 20, PutU32(c.ioCapabilities));
    PutFlagsLaid(b, at, c);
    U64At(b, at + 4, PayloadOf(c));
    U64At(b, at + 12, c.maxInstructionsPerTurn);
    U32At(b, at + 20, c.ioCapabilities);
  }

  lemma PutFlagsLaid(b: seq<byte>, at: nat, c: MachineConfig)
    requires At(b, at, PutFlags(c))
    ensures at + 4 <= |b| && FlagByte(b[at], c.isTandy) && FlagByte(b[at + 1], c.strict)
    ensures FlagByte(b[at + 2], c.maxInstructions.Some?) && b[at + 3] == 0
  {
    var part := PutFlags(c);
    ElementsAt(b, at, part);
    assert b[at + 0] == part[0] && b[at + 1] == part[1] && b[at + 2] == part[2] && b[at + 3] == part[3];
  }

  lemma {:induction false} PutWordsLaid(b: seq<byte>, at: nat, ws: seq<int>)
    requires ValidWords(ws) && At(b, at, PutWords(ws))
    ensures WordsLaid(b, at, ws)
    decreases |ws|
  {
    Inside(b, at, PutWords(ws));
    if ws != [] {
      hide PutI16, At, WordLaid;
      Split(b, at, PutI16(ws[0]), PutWords(ws[1..]));
      WordAt(b, at, ws[0]);
      PutWordsLaid(b, at + 2, ws[1..]);
      forall i | 0 < i < |ws|
        ensures WordLaid(b, at + 2 * i, ws[i])
      {
        assert ws[1..][i - 1] == ws[i] && at + 2 + 2 * (i - 1) == at + 2 * i;
      }
    }
  }

  lemma WordAt(b: seq<byte>, at: nat, w: int)
    requires IsInt16(w) && At(b, at, PutI16(w))
    ensures WordLaid(b, at, w)
  {
    hide PutI16, Big16;
    I16At(b, at, w);
  }

  lemma PutFrameHeadLaid(b: seq<byte>, at: nat, h: FrameHead)
    requires h.Fits() && At(b, at, PutFrameHead(h))
    ensures at + 12 <= |b| && Big32(b, at) == h.pc && b[at + 4] as int == h.localCount
    ensures FlagByte(b[at + 5], h.discardResult) && b[at + 6] as int == h.argCount && b[at + 7] == 0
    ensures Big32(b, at + 8) == h.stackCount
  {
    hide PutU8, PutU32, At, Big32;
    var t4 := PutU8(0) + PutU32(h.stackCount);
    var t3 := PutU8(h.argCount) + t4;
    var t2 := PutFlag(h.discardResult) + t3;
    var t1 := PutU8(h.localCount) + t2;
    Split(b, at, PutU32(h.pc), t1);
    Split(b, at + 4, PutU8(h.localCount), t2);
    Split(b, at + 5, PutFlag(h.discardResult), t3);
    Split(b, at + 6, PutU8(h.argCount), t4);
    Split(b, at + 7, PutU8(0), PutU32(h.stackCount));
    Inside(b, at + 8, PutU32(h.stackCount));
    U32At(b, at, h.pc);
    U8At(b, at + 4, h.localCount);
    U8At(b, at + 5, if h.discardResult then 1 else 0);
    U8At(b, at + 6, h.argCount);
    U8At(b, at + 7, 0);
    U32At(b, at + 8, h.stackCount);
  }

  lemma PutFrameLaid(b: seq<byte>, at: nat, f: Frame, byteLength: nat)
    requires ValidFrame(f, byteLength) && byteLength <= U32_MAX && At(b, at, PutFrame(f, byteLength))
    ensures FrameLaid(b, at, f)
  {
    hide PutFrameHead, PutWords, ValidWords, At, Big32, FlagByte, WordsLaid;
    Split(b, at, PutFrameHead(HeadOf(f)), PutWords(f.locals) + PutWords(f.ds));
    Split(b, at + 12, PutWords(f.locals), PutWords(f.ds));
    PutFrameHeadLaid(b, at, HeadOf(f));
    PutWordsLaid(b, at + 12, f.locals);
    PutWordsLaid(b, at + 12 + 2 * |f.locals|, f.ds);
  }

  lemma {:induction false} PutFramesLaid(b: seq<byte>, at: nat, fs: seq<Frame>, byteLength: nat)
    requires ValidFrames(fs, byteLength) && byteLength <= U32_MAX && At(b, at, PutFrames(fs, byteLength))
    ensures FramesLaid(b, at, fs)
    decreases |fs|
  {
    hide PutFrame, At, FrameLaid, ValidFrame;
    if fs != [] {
      Split(b, at, PutFrame(fs[0], byteLength), PutFrames(fs[1..], byteLength));
      PutFrameLaid(b, at, fs[0], byteLength);
      PutFramesLaid(b, at + FrameBytes(fs[0]), fs[1..], byteLength);
    }
  }

  lemma PutRegistersLaid(b: seq<byte>, at: nat, r: Registers)
    requires r.gameplayState <= U32_MAX && r.reseedState <= U32_MAX && IsInt16(r.savedFlags) && r.rngMode <= 1
    requires At(b, at, PutRegisters(r))
    ensures RegistersLaid(b, at, r)
  {
    hide PutU8, PutI16, PutU32, At, Big32, WordLaid;
    var t3 := PutU8(r.rngMode) + PutU8(0);
    var t2 := PutI16(r.savedFlags) + t3;
    Split(b, at, PutU32(r.gameplayState), PutU32(r.reseedState) + t2);
    Split(b, at + 4, PutU32(r.reseedState), t2);
    Split(b, at + 8, PutI16(r.savedFlags), t3);
    Split(b, at + 10, PutU8(r.rngMode), PutU8(0));
    Inside(b, at + 11, PutU8(0));
    U32At(b, at, r.gameplayState);
    U32At(b, at + 4, r.reseedState);
    WordAt(b, at + 8, r.savedFlags);
    U8At(b, at + 10, r.rngMode);
    U8At(b, at + 11, 0);
  }

  lemma StreamAt(b: seq<byte>, at: nat, x: Stream, memoryLength: nat)
    requires ValidStream(x, memoryLength) && memoryLength <= U16_MAX && At(b, at, PutStream(x, memoryLength))
    ensures StreamLaid(b, at, x)
  {
    hide PutU32, At, Big32;
    Split(b, at, PutU32(x.base), PutU32(x.cursor));
    Inside(b, at + 4, PutU32(x.cursor));
    U32At(b, at, x.base);
    U32At(b, at + 4, x.cursor);
  }

  lemma {:induction false} PutStreamListLaid(b: seq<byte>, at: nat, xs: seq<Stream>, memoryLength: nat)
    requires ValidStreams(xs, memoryLength) && memoryLength <= U16_MAX && At(b, at, PutStreamList(xs, memoryLength))
    ensures StreamsLaid(b, at, xs)
    decreases |xs|
  {
    Inside(b, at, PutStreamList(xs, memoryLength));
    if xs != [] {
      hide PutStream, At, Big32, ValidStream, StreamLaid;
      Split(b, at, PutStream(xs[0], memoryLength), PutStreamList(xs[1..], memoryLength));
      StreamAt(b, at, xs[0], memoryLength);
      PutStreamListLaid(b, at + 8, xs[1..], memoryLength);
      forall i | 0 < i < |xs|
        ensures StreamLaid(b, at + 8 * i, xs[i])
      {
        assert xs[1..][i - 1] == xs[i] && at + 8 + 8 * (i - 1) == at + 8 * i;
      }
    }
  }

  lemma PutPendingLaid(b: seq<byte>, at: nat, p: PendingRead)
    requires PendingFits(p) && At(b, at, PutPending(p))
    ensures PendingLaid(b, at, p)
  {
    hide PutReadKind, PutU32, At, Big32;
    Split(b, at, PutReadKind(), PutPendingFields(p));
    ReadKindAt(b, at);
    var t3 := PutU32(p.parseBuffer) + PutU32(p.maxLength);
    var t2 := PutU32(p.textBuffer) + t3;
    Split(b, at + 4, PutU32(p.instructionPc), PutU32(p.continuationPc) + t2);
    Split(b, at + 8, PutU32(p.continuationPc), t2);
    Split(b, at + 12, PutU32(p.textBuffer), t3);
    Split(b, at + 16, PutU32(p.parseBuffer), PutU32(p.maxLength));
    Inside(b, at + 20, PutU32(p.maxLength));
    U32At(b, at + 4, p.instructionPc);
    U32At(b, at + 8, p.continuationPc);
    U32At(b, at + 12, p.textBuffer);
    U32At(b, at + 16, p.parseBuffer);
    U32At(b, at + 20, p.maxLength);
  }

  lemma ReadKindAt(b: seq<byte>, at: nat)
    requires At(b, at, PutReadKind())
    ensures at + 4 <= |b| && b[at] == 1 && b[at + 1] == 0 && b[at + 2] == 0 && b[at + 3] == 0
  {
    var part := PutReadKind();
    ElementsAt(b, at, part);
    assert b[at + 0] == part[0] && b[at + 1] == part[1] && b[at + 2] == part[2] && b[at + 3] == part[3];
  }

  lemma ImagePartLaid(b: seq<byte>, at: nat, m: Checkpoint)
    requires ImageOfMachine(m).Valid() && At(b, at, PutImagePart(ImageOfMachine(m)))
    ensures ImageLaid(b, at, m)
  {
    hide PutStory, PutConfig, PutU32, At, Big32, StoryLaid, ConfigLaid, ValidConfig, IsAscii;
    var memory := m.dynamicMemory;
    Split(b, at, PutStory(m.story), PutConfig(m.config) + PutMemory(memory));
    Split(b, at + 26, PutConfig(m.config), PutMemory(memory));
    Split(b, at + 50, PutU32(|memory|), memory);
    Inside(b, at + 50, PutU32(|memory|));
    PutStoryLaid(b, at, m.story);
    PutConfigLaid(b, at + 26, m.config);
    U32At(b, at + 50, |memory|);
  }

  lemma StackPartLaid(b: seq<byte>, at: nat, m: Checkpoint)
    requires StacksOf(m).Valid(m.story.byteLength) && m.story.byteLength <= U32_MAX
    requires At(b, at, PutStackPart(StacksOf(m), m.story.byteLength))
    ensures StacksLaid(b, at, m)
  {
    hide PutU32, PutWords, PutFrames, ValidWords, ValidFrames, FrameWords, At, Big32, WordsLaid, FramesLaid;
    var n := |m.dataStack|;
    Split(b, at, PutStack(m.dataStack), PutCallStack(m.callStack, m.story.byteLength));
    Split(b, at, PutU32(n), PutWords(m.dataStack));
    Split(b, at + 4 + 2 * n, PutU32(|m.callStack|), PutFrames(m.callStack, m.story.byteLength));
    Inside(b, at + 4 + 2 * n, PutU32(|m.callStack|));
    U32At(b, at, n);
    PutWordsLaid(b, at + 4, m.dataStack);
    U32At(b, at + 4 + 2 * n, |m.callStack|);
    PutFramesLaid(b, at + 8 + 2 * n, m.callStack, m.story.byteLength);
  }

  lemma StatePartLaid(b: seq<byte>, at: nat, m: Checkpoint)
    requires ImageOfMachine(m).Valid() && StateOf(m).Valid(ImageOfMachine(m))
    requires At(b, at, PutStatePart(StateOf(m), ImageOfMachine(m)))
    requires at + 56 + 8 * |m.stream3| == |b|
    ensures StateLaid(b, m)
  {
    hide PutRegisters, PutU32, PutU64, PutStreamList, PutPending, At, Big32, Big64, RegistersLaid, StreamsLaid, PendingLaid;
    hide ValidStreams, ValidPendingRead, MemoryI16, ValidConfig, PendingFits, ValidStory;
    var n, length := |m.stream3|, |m.dynamicMemory|;
    MemoryFits(m);
    assert PendingFits(m.pendingRead) by {
      PendingOf(m);
    }
    var pending, counts := PutPending(m.pendingRead), PutCounts(m.counts);
    Split(b, at, PutRegisters(m.registers), PutStreams(m.stream3, length) + (counts + pending));
    Split(b, at + 12, PutStreams(m.stream3, length), counts + pending);
    Split(b, at + 12, PutU32(n), PutStreamList(m.stream3, length));
    Split(b, at + 16 + 8 * n, counts, pending);
    Split(b, at + 16 + 8 * n, PutU64(m.counts.instructionCount), PutU64(m.counts.turnInstructionCount));
    PutRegistersLaid(b, at, m.registers);
    U32At(b, at + 12, n);
    PutStreamListLaid(b, at + 16, m.stream3, length);
    U64At(b, at + 16 + 8 * n, m.counts.instructionCount);
    U64At(b, at + 24 + 8 * n, m.counts.turnInstructionCount);
    PutPendingLaid(b, at + 32 + 8 * n, m.pendingRead);
  }

  lemma PendingOf(m: Checkpoint)
    requires ImageOfMachine(m).Valid() && StateOf(m).Valid(ImageOfMachine(m))
    ensures PendingFits(m.pendingRead)
  {
    hide ValidRegisters, ValidStreams, ValidCounts, ValidConfig;
    PendingFitsImage(m.pendingRead, m.story, m.dynamicMemory);
  }

  lemma MemoryFits(m: Checkpoint)
    requires ImageOfMachine(m).Valid()
    ensures |m.dynamicMemory| <= U16_MAX && m.story.byteLength <= U32_MAX
  {
  }

  lemma {:induction false} FramesEndAfter(at: nat, fs: seq<Frame>)
    ensures FramesEnd(at, fs) == at + FramesBytes(fs)
    decreases |fs|
  {
    if fs != [] {
      FramesEndAfter(at + 12 + 2 * |fs[0].locals| + 2 * |fs[0].ds|, fs[1..]);
    }
  }

  lemma WireEnds(ids: Identities, e: Envelope)
    requires ValidIdentities(ids) && ValidEnvelope(e)
    ensures EndLaid(Wire(ids, e), MachineAt(ids, e), e.machine)
  {
    hide Wire, TextBytes, FramesBytes, FramesEnd, ValidIdentities, ValidEnvelope;
    FramesEndAfter(
      MachineAt(ids, e) + 62 + |e.machine.dynamicMemory| + 2 * |e.machine.dataStack|, e.machine.callStack);
  }

  /** The encoding of a valid checkpoint has every field where the format puts it. */
  lemma WireLaid(ids: Identities, e: Envelope)
    requires ValidIdentities(ids) && ValidEnvelope(e)
    ensures Laid(Wire(ids, e), ids, e)
  {
    hide PutPrologue, PutIdentities, PutOrigin, PutImagePart, PutStackPart, PutStatePart, At, PrologueLaid, ImageLaid;
    hide StacksLaid, StateLaid, ShortLaid, DigestLaid, Big32, Big64, ValidCheckpoint, Utf8.Encode, FramesBytes, FrameWords;
    hide ValidStory, ValidConfig, ValidWords, ValidFrames, ValidRegisters, ValidStreams, ValidCounts, ValidPendingRead;
    hide EndLaid;
    var b, m := Wire(ids, e), e.machine;
    WireEnds(ids, e);
    CapsCompose(ids, e);
    ValidParts(m);
    MemoryFits(m);
    var k, s := PutStackPart(StacksOf(m), m.story.byteLength), PutStatePart(StateOf(m), ImageOfMachine(m));
    var at, n := MachineAt(ids, e), |m.dynamicMemory|;
    var origin := 22 + TextBytes(ids.runtimeId) + TextBytes(ids.adapterId) + TextBytes(e.storyId);
    Whole(b);
    Split(b, 0, PutPrologue(TotalBytes(ids, e)),
      PutIdentities(ids, e.storyId) + (PutOrigin(OriginOf(e)) + PutMachine(m)));
    Split(b, 16, PutIdentities(ids, e.storyId), PutOrigin(OriginOf(e)) + PutMachine(m));
    Split(b, origin, PutOrigin(OriginOf(e)), PutMachine(m));
    Split(b, at, PutImagePart(ImageOfMachine(m)), k + s);
    Split(b, at + 54 + n, k, s);
    PutPrologueLaid(b, TotalBytes(ids, e));
    PutIdentitiesLaid(b, ids, e.storyId);
    PutOriginLaid(b, origin, OriginOf(e));
    ImagePartLaid(b, at, m);
    StackPartLaid(b, at + 54 + n, m);
    StatePartLaid(b, at + 54 + n + |k|, m);
  }

  /** What the decoder accepts is laid out so as well, with the values of what it is decoded to. */
  lemma AcceptedLaid(ids: Identities, b: seq<byte>)
    requires ValidIdentities(ids) && Parse(ids, b).Some?
    ensures Laid(b, ids, Parse(ids, b).value)
  {
    hide Parse, Wire, ValidEnvelope, Laid;
    ParseSound(ids, b);
    WireLaid(ids, Parse(ids, b).value);
  }
}
