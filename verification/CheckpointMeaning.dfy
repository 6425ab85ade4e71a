/**
 The checkpoint decoder in one line: bytes decode to a checkpoint exactly if it
 is sound and every one of its fields stands where the format puts it. Nothing
 here is said through the writer or the parser.
 */
module CheckpointMeaning {
  import opened Wrappers
  import opened Bytes
  import opened ByteLayout
  import opened CheckpointFormat
  import opened CheckpointLayout
  import opened CheckpointParse
  import Journal
  import Messages
  import Utf8

  // What a sound checkpoint is

  /** A story of version 3: at least its header of 64 bytes, and its dynamic memory within it. */
  predicate SoundStory(s: StoryInfo) {
    && s.release < 0x1_0000 && s.checksum < 0x1_0000
    && |s.serial| == 6 && (forall i :: 0 <= i < 6 ==> s.serial[i] as int < 128)
    && 64 <= s.staticMemoryBase <= s.byteLength < 0x1_0000_0000 && s.staticMemoryBase < 0x1_0000
  }

  /** No turn and no session may run for more instructions than a double counts exactly. */
  predicate SoundLimits(c: MachineConfig, n: Counts) {
    && c.ioCapabilities < 0x1_0000_0000
    && n.turnInstructionCount <= c.maxInstructionsPerTurn
    && 1 <= c.maxInstructionsPerTurn <= 9_007_199_254_740_991 && n.instructionCount <= 9_007_199_254_740_991
    && (c.maxInstructions.Some? ==>
      1 <= c.maxInstructions.value <= 9_007_199_254_740_991
      && n.turnInstructionCount <= n.instructionCount <= c.maxInstructions.value)
  }

  predicate SoundWords(ws: seq<int>) {
    forall i :: 0 <= i < |ws| ==> -32_768 <= ws[i] <= 32_767
  }

  /** A frame returns into the story, and has at most 15 locals, 7 arguments and 4096 words of its own. */
  predicate SoundFrame(f: Frame, byteLength: nat) {
    f.pc < byteLength && |f.locals| <= 15 && f.argCount <= 7 && |f.ds| <= 4096 && SoundWords(f.locals) && SoundWords(f.ds)
  }

  /** All the words that the frames hold. */
  function WordsHeld(fs: seq<Frame>): nat {
    if fs == [] then 0 else |fs[0].locals| + |fs[0].ds| + WordsHeld(fs[1..])
  }

  predicate SoundStacks(m: Checkpoint) {
    && SoundWords(m.dataStack)
    && |m.callStack| <= 1024
    && (forall i :: 0 <= i < |m.callStack| ==> SoundFrame(m.callStack[i], m.story.byteLength))
    && |m.dataStack| + WordsHeld(m.callStack) <= 65_535
  }

  /** The saved flags are the signed word that stands at address 16 of the memory, in the story's byte order. */
  predicate SoundRegisters(r: Registers, memory: seq<byte>, swapped: bool) {
    && r.gameplayState < 0x1_0000_0000 && r.reseedState < 0x1_0000_0000 && r.rngMode <= 1
    && 18 <= |memory|
    && var word := if swapped then memory[16] as int + 256 * memory[17] as int
         else 256 * memory[16] as int + memory[17] as int;
      r.savedFlags == if word < 32_768 then word else word - 65_536
  }

  /** A table for output: its length word first, then what was written so far. */
  predicate SoundStream(s: Stream, memoryLength: nat) {
    s.base + 2 <= s.cursor && s.cursor <= memoryLength
  }

  /**
   The machine waits inside a `read` of the story. Its text buffer declares the input length, and both buffers lie in the
   memory as far as they declare to be used.
   */
  predicate SoundRead(p: PendingRead, byteLength: nat, memory: seq<byte>) {
    && p.instructionPc < p.continuationPc && p.continuationPc < byteLength
    && (p.instructionPc < |memory| ==> memory[p.instructionPc] == 228)
    && p.textBuffer < |memory| && memory[p.textBuffer] as int == p.maxLength && p.maxLength >= 1
    && p.textBuffer + 1 + p.maxLength <= |memory|
    && 1 <= p.parseBuffer < |memory| && p.parseBuffer + 2 + 4 * memory[p.parseBuffer] as int <= |memory|
  }

  predicate Sound(e: Envelope) {
    var m := e.machine;
    && 1 <= |Utf8.Encode(e.storyId)| <= 128
    && |e.artifactSha256| == 64 && (forall i :: 0 <= i < 64 ==> e.artifactSha256[i] in "0123456789abcdef")
    && e.revision <= 9_007_199_254_740_991 && |Utf8.Encode(e.lastOutput)| <= 262_144
    && SoundStory(m.story) && SoundLimits(m.config, m.counts)
    && |m.dynamicMemory| == m.story.staticMemoryBase
    && SoundStacks(m)
    && SoundRegisters(m.registers, m.dynamicMemory, m.story.byteSwapped)
    && |m.stream3| <= 16 && (forall i :: 0 <= i < |m.stream3| ==> SoundStream(m.stream3[i], |m.dynamicMemory|))
    && SoundRead(m.pendingRead, m.story.byteLength, m.dynamicMemory)
  }

  lemma {:induction false} WordsHeldAre(fs: seq<Frame>)
    ensures WordsHeld(fs) == FrameWords(fs)
  {
    if fs != [] {
      WordsHeldAre(fs[1..]);
    }
  }

  lemma StacksIff(m: Checkpoint)
    ensures ValidStacks(m) <==> SoundStacks(m)
  {
    hide FrameWords, WordsHeld;
    WordsHeldAre(m.callStack);
    forall f: Frame
      ensures ValidFrame(f, m.story.byteLength) <==> SoundFrame(f, m.story.byteLength)
    {
      FrameIff(f, m.story.byteLength);
    }
    WordsIff(m.dataStack);
    hide ValidFrame, SoundFrame, ValidWords, SoundWords;
  }

  lemma FrameIff(f: Frame, byteLength: nat)
    ensures ValidFrame(f, byteLength) <==> SoundFrame(f, byteLength)
  {
    WordsIff(f.locals);
    WordsIff(f.ds);
    hide ValidWords, SoundWords;
  }

  lemma WordsIff(ws: seq<int>)
    ensures ValidWords(ws) <==> SoundWords(ws)
  {
  }

  lemma StoryIff(s: StoryInfo)
    ensures ValidStory(s) <==> SoundStory(s)
  {
  }

  lemma LimitsIff(c: MachineConfig, n: Counts)
    ensures ValidConfig(c) && ValidCounts(n, c) <==> SoundLimits(c, n)
  {
  }

  lemma RegistersIff(r: Registers, memory: seq<byte>, swapped: bool)
    ensures ValidRegisters(r, memory, swapped) <==> SoundRegisters(r, memory, swapped)
  {
  }

  lemma ReadIff(p: PendingRead, byteLength: nat, memory: seq<byte>)
    ensures ValidPendingRead(p, byteLength, memory) <==> SoundRead(p, byteLength, memory)
  {
  }

  lemma DigestIff(s: string)
    ensures Messages.IsSha256(s) <==> |s| == 64 && forall i :: 0 <= i < 64 ==> s[i] in "0123456789abcdef"
  {
    forall c
      ensures Messages.IsHexDigit(c) <==> c in "0123456789abcdef"
    {
      HexIff(c);
    }
  }

  lemma HexIff(c: char)
    ensures Messages.IsHexDigit(c) <==> c in "0123456789abcdef"
  {
    var digits := "0123456789abcdef";
    if '0' <= c <= '9' {
      assert digits[c as int - '0' as int] == c;
    } else if 'a' <= c <= 'f' {
      assert digits[10 + c as int - 'a' as int] == c;
    }
  }

  /** The validity that the encoder and the decoder check is soundness. */
  lemma SoundIff(e: Envelope)
    ensures ValidEnvelope(e) <==> Sound(e)
  {
    hide ValidStory, SoundStory, ValidConfig, ValidCounts, SoundLimits, ValidStacks, SoundStacks, ValidRegisters,
      SoundRegisters, ValidPendingRead, SoundRead, Messages.IsSha256, Utf8.Encode;
    var m := e.machine;
    DigestIff(e.artifactSha256);
    StoryIff(m.story);
    LimitsIff(m.config, m.counts);
    StacksIff(m);
    RegistersIff(m.registers, m.dynamicMemory, m.story.byteSwapped);
    ReadIff(m.pendingRead, m.story.byteLength, m.dynamicMemory);
    forall s: Stream
      ensures ValidStream(s, |m.dynamicMemory|) <==> SoundStream(s, |m.dynamicMemory|)
    {
    }
  }

  // The layout leaves nothing open

  lemma FlagAgrees(b: seq<byte>, c: seq<byte>, at: nat, f: bool)
    requires at < |b| && at < |c| && FlagByte(b[at], f) && FlagByte(c[at], f)
    ensures Agree(b, c, at, at + 1)
  {
  }

  lemma ShortAgrees(b: seq<byte>, c: seq<byte>, at: nat, text: string)
    requires ShortLaid(b, at, text) && ShortLaid(c, at, text)
    ensures Agree(b, c, at, at + 2 + |Utf8.Encode(text)|)
  {
    hide Big16, At, Utf8.Encode;
    Agree16(b, c, at);
    PartsAgree(b, c, at + 2, Utf8.Encode(text));
  }

  lemma HexDigitsDiffer(i: nat, j: nat)
    requires i < 16 && j < 16 && HEX_DIGITS[i] == HEX_DIGITS[j]
    ensures i == j
  {
    HexDigitAt(i);
    HexDigitAt(j);
  }

  lemma HexDigitAt(i: nat)
    requires i < 16
    ensures HEX_DIGITS[i] as int == if i < 10 then '0' as int + i else 'a' as int + i - 10
  {
  }

  lemma DigestAgrees(b: seq<byte>, c: seq<byte>, at: nat, digest: string)
    requires DigestLaid(b, at, digest) && DigestLaid(c, at, digest)
    ensures Agree(b, c, at, at + 32)
  {
    assert |HEX_DIGITS| == 16;
    hide HEX_DIGITS;
    forall i | at <= i < at + 32
      ensures b[i] == c[i]
    {
      var k := i - at;
      assert digest[2 * k] == HEX_DIGITS[b[at + k] / 16] == HEX_DIGITS[c[at + k] / 16];
      assert digest[2 * k + 1] == HEX_DIGITS[b[at + k] % 16] == HEX_DIGITS[c[at + k] % 16];
      HexDigitsDiffer(b[i] as int / 16, c[i] as int / 16);
      HexDigitsDiffer(b[i] as int % 16, c[i] as int % 16);
    }
  }

  lemma HeaderAgrees(b: seq<byte>, c: seq<byte>, ids: Identities, e: Envelope)
    requires PrologueLaid(b) && PrologueLaid(c) && HeaderLaid(b, ids, e) && HeaderLaid(c, ids, e) && |b| == |c|
    ensures Agree(b, c, 0, MachineAt(ids, e))
  {
    hide Big16, Big32, Big64, Utf8.Encode, At, ShortLaid, DigestLaid;
    var r, a, s := Journal.TextBytes(ids.runtimeId), Journal.TextBytes(ids.adapterId), Journal.TextBytes(e.storyId);
    assert Agree(b, c, 0, 12) by {
      assert forall i :: 0 <= i < 8 ==> b[i] == b[..8][i] && c[i] == c[..8][i];
    }
    Agree32(b, c, 12);
    ShortAgrees(b, c, 16, ids.runtimeId);
    ShortAgrees(b, c, 18 + r, ids.adapterId);
    ShortAgrees(b, c, 20 + r + a, e.storyId);
    DigestAgrees(b, c, 22 + r + a + s, e.artifactSha256);
    Agree64(b, c, 54 + r + a + s);
    Agree32(b, c, 62 + r + a + s);
    PartsAgree(b, c, 66 + r + a + s, Utf8.Encode(e.lastOutput));
    hide Agree;
    AgreeOn(b, c, 0, 12, 16);
    AgreeOn(b, c, 0, 16, 18 + r);
    AgreeOn(b, c, 0, 18 + r, 20 + r + a);
    AgreeOn(b, c, 0, 20 + r + a, 22 + r + a + s);
    AgreeOn(b, c, 0, 22 + r + a + s, 54 + r + a + s);
    AgreeOn(b, c, 0, 54 + r + a + s, 62 + r + a + s);
    AgreeOn(b, c, 0, 62 + r + a + s, 66 + r + a + s);
    AgreeOn(b, c, 0, 66 + r + a + s, MachineAt(ids, e));
  }

  lemma StoryAgrees(b: seq<byte>, c: seq<byte>, at: nat, s: StoryInfo)
    requires StoryLaid(b, at, s) && StoryLaid(c, at, s) && |Utf8.Encode(s.serial)| == 6
    ensures Agree(b, c, at, at + 26)
  {
    hide Big16, Big32, Utf8.Encode, At;
    assert Agree(b, c, at, at + 6) && Agree(b, c, at + 8, at + 10);
    Agree16(b, c, at + 6);
    Agree16(b, c, at + 10);
    Agree32(b, c, at + 12);
    Agree32(b, c, at + 16);
    PartsAgree(b, c, at + 20, Utf8.Encode(s.serial));
  }

  lemma ConfigAgrees(b: seq<byte>, c: seq<byte>, at: nat, config: MachineConfig)
    requires ConfigLaid(b, at, config) && ConfigLaid(c, at, config)
    ensures Agree(b, c, at, at + 24)
  {
    hide Big32, Big64;
    assert Agree(b, c, at, at + 4);
    Agree64(b, c, at + 4);
    Agree64(b, c, at + 12);
    Agree32(b, c, at + 20);
  }

  lemma ImageAgrees(b: seq<byte>, c: seq<byte>, at: nat, m: Checkpoint)
    requires ImageLaid(b, at, m) && ImageLaid(c, at, m) && |Utf8.Encode(m.story.serial)| == 6
    ensures Agree(b, c, at, at + 54 + |m.dynamicMemory|)
  {
    hide Big32, At, StoryLaid, ConfigLaid, Utf8.Encode;
    StoryAgrees(b, c, at, m.story);
    ConfigAgrees(b, c, at + 26, m.config);
    Agree32(b, c, at + 50);
    PartsAgree(b, c, at + 54, m.dynamicMemory);
  }

  lemma {:induction false} WordsAgree(b: seq<byte>, c: seq<byte>, at: nat, ws: seq<int>)
    requires WordsLaid(b, at, ws) && WordsLaid(c, at, ws)
    ensures Agree(b, c, at, at + 2 * |ws|)
    decreases |ws|
  {
    if ws != [] {
      var init, last := ws[..|ws| - 1], ws[|ws| - 1];
      assert forall i {:trigger init[i]} :: 0 <= i < |init| ==> init[i] == ws[i];
      WordsAgree(b, c, at, init);
      assert last == ws[|init|];
      assert WordLaid(b, at + 2 * |init|, last) && WordLaid(c, at + 2 * |init|, last);
      hide WordsLaid;
      Agree16(b, c, at + 2 * |init|);
    }
  }

  lemma FrameAgrees(b: seq<byte>, c: seq<byte>, at: nat, f: Frame)
    requires FrameLaid(b, at, f) && FrameLaid(c, at, f)
    ensures Agree(b, c, at, at + 12 + 2 * |f.locals| + 2 * |f.ds|)
  {
    hide Big32, WordsLaid;
    Agree32(b, c, at);
    assert Agree(b, c, at + 4, at + 8);
    Agree32(b, c, at + 8);
    WordsAgree(b, c, at + 12, f.locals);
    WordsAgree(b, c, at + 12 + 2 * |f.locals|, f.ds);
  }

  lemma {:induction false} FramesAgree(b: seq<byte>, c: seq<byte>, at: nat, fs: seq<Frame>)
    requires FramesLaid(b, at, fs) && FramesLaid(c, at, fs) && at <= |b| && at <= |c|
    ensures Agree(b, c, at, FramesEnd(at, fs))
    decreases |fs|
  {
    hide FrameLaid;
    if fs != [] {
      var next := at + 12 + 2 * |fs[0].locals| + 2 * |fs[0].ds|;
      FrameAgrees(b, c, at, fs[0]);
      FramesAgree(b, c, next, fs[1..]);
    }
  }

  lemma StacksAgree(b: seq<byte>, c: seq<byte>, at: nat, m: Checkpoint)
    requires StacksLaid(b, at, m) && StacksLaid(c, at, m)
    ensures Agree(b, c, at, FramesEnd(at + 8 + 2 * |m.dataStack|, m.callStack))
  {
    hide Big32, WordsLaid, FramesLaid, FramesEnd;
    var n := |m.dataStack|;
    Agree32(b, c, at);
    WordsAgree(b, c, at + 4, m.dataStack);
    Agree32(b, c, at + 4 + 2 * n);
    FramesAgree(b, c, at + 8 + 2 * n, m.callStack);
  }

  lemma {:induction false} StreamsAgree(b: seq<byte>, c: seq<byte>, at: nat, xs: seq<Stream>)
    requires StreamsLaid(b, at, xs) && StreamsLaid(c, at, xs)
    ensures Agree(b, c, at, at + 8 * |xs|)
    decreases |xs|
  {
    if xs != [] {
      var init, last := xs[..|xs| - 1], xs[|xs| - 1];
      assert forall i {:trigger init[i]} :: 0 <= i < |init| ==> init[i] == xs[i];
      StreamsAgree(b, c, at, init);
      assert last == xs[|init|];
      assert StreamLaid(b, at + 8 * |init|, last) && StreamLaid(c, at + 8 * |init|, last);
      hide StreamsLaid, Big32;
      Agree32(b, c, at + 8 * |init|);
      Agree32(b, c, at + 8 * |init| + 4);
    }
  }

  lemma StateAgrees(b: seq<byte>, c: seq<byte>, m: Checkpoint)
    requires StateLaid(b, m) && StateLaid(c, m) && |b| == |c|
    ensures Agree(b, c, |b| - 56 - 8 * |m.stream3|, |b|)
  {
    hide Big32, Big64, StreamsLaid;
    var end, n := |b|, |m.stream3|;
    RegistersAgree(b, c, end - 56 - 8 * n, m.registers);
    Agree32(b, c, end - 44 - 8 * n);
    StreamsAgree(b, c, end - 40 - 8 * n, m.stream3);
    Agree64(b, c, end - 40);
    Agree64(b, c, end - 32);
    PendingAgrees(b, c, end - 24, m.pendingRead);
    hide StateLaid, RegistersLaid, PendingLaid;
  }

  lemma RegistersAgree(b: seq<byte>, c: seq<byte>, at: nat, r: Registers)
    requires RegistersLaid(b, at, r) && RegistersLaid(c, at, r)
    ensures Agree(b, c, at, at + 12)
  {
    hide Big16, Big32;
    Agree32(b, c, at);
    Agree32(b, c, at + 4);
    Agree16(b, c, at + 8);
    assert Agree(b, c, at + 10, at + 12);
  }

  lemma PendingAgrees(b: seq<byte>, c: seq<byte>, at: nat, p: PendingRead)
    requires PendingLaid(b, at, p) && PendingLaid(c, at, p)
    ensures Agree(b, c, at, at + 24)
  {
    hide Big32;
    assert Agree(b, c, at, at + 4);
    Agree32(b, c, at + 4);
    Agree32(b, c, at + 8);
    Agree32(b, c, at + 12);
    Agree32(b, c, at + 16);
    Agree32(b, c, at + 20);
  }

  /** Bytes that are laid out as the same checkpoint are the same bytes. */
  lemma LaidOnce(ids: Identities, b: seq<byte>, c: seq<byte>, e: Envelope)
    requires Laid(b, ids, e) && Laid(c, ids, e) && |Utf8.Encode(e.machine.story.serial)| == 6
    ensures b == c
  {
    hide PrologueLaid, HeaderLaid, ImageLaid, StacksLaid, StateLaid, FramesEnd, MachineAt, Utf8.Encode, Agree;
    var m, at := e.machine, MachineAt(ids, e);
    var stacks := at + 54 + |m.dynamicMemory|;
    var state := FramesEnd(stacks + 8 + 2 * |m.dataStack|, m.callStack);
    HeaderAgrees(b, c, ids, e);
    ImageAgrees(b, c, at, m);
    StacksAgree(b, c, stacks, m);
    StateAgrees(b, c, m);
    AgreeOn(b, c, 0, at, stacks);
    AgreeOn(b, c, 0, stacks, state);
    AgreeOn(b, c, 0, state, |b|);
    AgreeWholly(b, c);
  }

  lemma {:induction false} AsciiLength(s: string)
    requires forall i :: 0 <= i < |s| ==> s[i] as int < 128
    ensures |Utf8.Encode(s)| == |s|
  {
    if s != "" {
      assert forall i :: 0 <= i < |s[1..]| ==> s[1..][i] == s[i + 1];
      AsciiLength(s[1..]);
    }
  }

  /** Bytes decode to a checkpoint exactly if it is sound and they are laid out as it. */
  lemma DecodesIff(ids: Identities, b: seq<byte>, e: Envelope)
    requires ValidIdentities(ids)
    ensures Parse(ids, b) == Some(e) <==> Sound(e) && Laid(b, ids, e)
  {
    SoundIff(e);
    if Sound(e) {
      AsciiLength(e.machine.story.serial);
    }
    hide Parse, Wire, ValidEnvelope, Sound, Laid, ValidIdentities, Utf8.Encode;
    Canonical(ids, b, e);
    if Sound(e) {
      WireLaid(ids, e);
      if Laid(b, ids, e) {
        LaidOnce(ids, b, Wire(ids, e), e);
      }
    }
  }
}
