/** The parts of a checkpoint on the wire: each `Put` has a `Get` that inverts it and accepts nothing else. */
module CheckpointWire {
  import opened Wrappers
  import opened Bytes
  import opened Journal
  import opened CheckpointFormat
  import Messages
  import SnapshotFormat
  import Utf8

  // Prologue

  function PutPrologue(total: nat): (b: seq<byte>)
    requires total < U32_FACTOR
    ensures |b| == 16
  {
    MAGIC + (PutU16(SCHEMA_VERSION) + (PutU16(0) + PutU32(total)))
  }

  function GetPrologue(b: seq<byte>): (r: Parsed<nat>) {
    var (magic, b1) :- GetBytes(b, 8);
    var (version, b2) :- GetU16(b1);
    var (reserved, b3) :- GetU16(b2);
    var (total, b4) :- GetU32(b3);
    if magic != MAGIC || version != SCHEMA_VERSION || reserved != 0 then NoParse else Got(total, b4)
  }

  lemma PrologueSound(b: seq<byte>)
    requires GetPrologue(b).Got?
    ensures var r := GetPrologue(b); r.value < U32_FACTOR && b == PutPrologue(r.value) + r.rest
  {
    hide PutU16, GetU16, PutU32, GetU32;
    var Got(total, rest) := GetPrologue(b);
    assert PutU16(0) + (PutU32(total) + rest) == (PutU16(0) + PutU32(total)) + rest;
  }

  lemma PrologueInverse(total: nat, s: seq<byte>)
    requires total < U32_FACTOR
    ensures GetPrologue(PutPrologue(total) + s) == Got(total, s)
  {
    hide PutU16, GetU16, PutU32, GetU32;
    var t4 := PutU32(total) + s;
    var t3 := PutU16(0) + t4;
    var t2 := PutU16(SCHEMA_VERSION) + t3;
    assert PutPrologue(total) + s == MAGIC + t2;
    U16Inverse(SCHEMA_VERSION, t3);
    U16Inverse(0, t4);
    U32Inverse(total, s);
  }

  // Texts with a 16-bit length

  function PutShort(text: string): (b: seq<byte>)
    requires TextBytes(text) < 0x1_0000
    ensures |b| == 2 + TextBytes(text)
  {
    PutU16(TextBytes(text)) + Utf8.Encode(text)
  }

  function GetShort(b: seq<byte>, max: nat): (r: Parsed<string>) {
    var (n, b1) :- GetU16(b);
    SnapshotFormat.GetText(b1, n, max, false)
  }

  lemma ShortSound(b: seq<byte>, max: nat)
    requires GetShort(b, max).Got? && max < 0x1_0000
    ensures var r := GetShort(b, max); 0 < TextBytes(r.value) <= max && b == PutShort(r.value) + r.rest
  {
    hide PutU16, GetU16, SnapshotFormat.GetText, Utf8.Encode;
    var Got(n, b1) := GetU16(b);
    var Got(text, rest) := SnapshotFormat.GetText(b1, n, max, false);
    assert PutU16(n) + (Utf8.Encode(text) + rest) == (PutU16(n) + Utf8.Encode(text)) + rest;
  }

  lemma ShortInverse(text: string, max: nat, s: seq<byte>)
    requires 0 < TextBytes(text) <= max < 0x1_0000
    ensures GetShort(PutShort(text) + s, max) == Got(text, s)
  {
    hide PutU16, GetU16, SnapshotFormat.GetText, Utf8.Encode;
    assert PutShort(text) + s == PutU16(TextBytes(text)) + (Utf8.Encode(text) + s);
    U16Inverse(TextBytes(text), Utf8.Encode(text) + s);
    SnapshotFormat.TextInverse(text, max, false, s);
  }

  // Identities

  function PutIdentities(ids: Identities, storyId: string): (b: seq<byte>)
    requires ValidIdentities(ids) && TextBytes(storyId) <= MAX_STORY_ID_BYTES
    ensures |b| == 6 + TextBytes(ids.runtimeId) + TextBytes(ids.adapterId) + TextBytes(storyId)
  {
    PutShort(ids.runtimeId) + (PutShort(ids.adapterId) + PutShort(storyId))
  }

  function GetIdentities(ids: Identities, b: seq<byte>): (r: Parsed<string>) {
    var (runtimeId, b1) :- GetShort(b, MAX_IDENTITY_BYTES);
    var (adapterId, b2) :- GetShort(b1, MAX_IDENTITY_BYTES);
    var (storyId, b3) :- GetShort(b2, MAX_STORY_ID_BYTES);
    if runtimeId != ids.runtimeId || adapterId != ids.adapterId then NoParse else Got(storyId, b3)
  }

  lemma IdentitiesSound(ids: Identities, b: seq<byte>)
    requires ValidIdentities(ids) && GetIdentities(ids, b).Got?
    ensures var r := GetIdentities(ids, b);
      0 < TextBytes(r.value) <= MAX_STORY_ID_BYTES && b == PutIdentities(ids, r.value) + r.rest
  {
    hide PutShort, GetShort, TextBytes;
    ShortSound(b, MAX_IDENTITY_BYTES);
    var Got(runtimeId, b1) := GetShort(b, MAX_IDENTITY_BYTES);
    ShortSound(b1, MAX_IDENTITY_BYTES);
    var Got(adapterId, b2) := GetShort(b1, MAX_IDENTITY_BYTES);
    ShortSound(b2, MAX_STORY_ID_BYTES);
    var Got(storyId, b3) := GetShort(b2, MAX_STORY_ID_BYTES);
    assert PutShort(runtimeId) + (PutShort(adapterId) + (PutShort(storyId) + b3)) ==
      (PutShort(runtimeId) + (PutShort(adapterId) + PutShort(storyId))) + b3;
  }

  lemma IdentitiesInverse(ids: Identities, storyId: string, s: seq<byte>)
    requires ValidIdentities(ids) && 0 < TextBytes(storyId) <= MAX_STORY_ID_BYTES
    ensures GetIdentities(ids, PutIdentities(ids, storyId) + s) == Got(storyId, s)
  {
    hide PutShort, GetShort, TextBytes;
    var t2 := PutShort(storyId) + s;
    var t1 := PutShort(ids.adapterId) + t2;
    assert PutIdentities(ids, storyId) + s == PutShort(ids.runtimeId) + t1;
    ShortInverse(ids.runtimeId, MAX_IDENTITY_BYTES, t1);
    ShortInverse(ids.adapterId, MAX_IDENTITY_BYTES, t2);
    ShortInverse(storyId, MAX_STORY_ID_BYTES, s);
  }

  // Digest, revision and last output

  datatype Origin = Origin(artifactSha256: string, revision: nat, lastOutput: string)
  {
    predicate Fits() {
      Messages.IsSha256(artifactSha256) && revision <= MAX_SAFE && TextBytes(lastOutput) <= MAX_OUTPUT_BYTES
    }
  }

  function PutOrigin(o: Origin): (b: seq<byte>)
    requires o.Fits()
    ensures |b| == 44 + TextBytes(o.lastOutput)
  {
    HexToBytes(o.artifactSha256) + (PutU64(o.revision) + (PutU32(TextBytes(o.lastOutput)) + Utf8.Encode(o.lastOutput)))
  }

  function GetOrigin(b: seq<byte>): (r: Parsed<Origin>) {
    var (digest, b1) :- GetBytes(b, 32);
    var (revision, b2) :- GetU64(b1);
    var (n, b3) :- GetU32(b2);
    var (lastOutput, b4) :- SnapshotFormat.GetText(b3, n, MAX_OUTPUT_BYTES, true);
    Got(Origin(BytesToHex(digest), revision, lastOutput), b4)
  }

  lemma OriginSound(b: seq<byte>)
    requires GetOrigin(b).Got?
    ensures var r := GetOrigin(b); r.value.Fits() && b == PutOrigin(r.value) + r.rest
  {
    hide PutU64, GetU64, PutU32, GetU32, SnapshotFormat.GetText, Utf8.Encode, BytesToHex, HexToBytes;
    var Got(digest, b1) := GetBytes(b, 32);
    var Got(revision, b2) := GetU64(b1);
    var Got(n, b3) := GetU32(b2);
    var Got(text, b4) := SnapshotFormat.GetText(b3, n, MAX_OUTPUT_BYTES, true);
    BytesToHexInjective(HexToBytes(BytesToHex(digest)), digest);
    assert digest + (PutU64(revision) + (PutU32(n) + (Utf8.Encode(text) + b4))) ==
      (digest + (PutU64(revision) + (PutU32(n) + Utf8.Encode(text)))) + b4;
  }

  lemma OriginInverse(o: Origin, s: seq<byte>)
    requires o.Fits()
    ensures GetOrigin(PutOrigin(o) + s) == Got(o, s)
  {
    hide PutU64, GetU64, PutU32, GetU32, SnapshotFormat.GetText, Utf8.Encode, BytesToHex, HexToBytes;
    var digest := HexToBytes(o.artifactSha256);
    var t3 := Utf8.Encode(o.lastOutput) + s;
    var t2 := PutU32(TextBytes(o.lastOutput)) + t3;
    var t1 := PutU64(o.revision) + t2;
    assert PutOrigin(o) + s == digest + t1;
    U64Inverse(o.revision, t2);
    U32Inverse(TextBytes(o.lastOutput), t3);
    SnapshotFormat.TextInverse(o.lastOutput, MAX_OUTPUT_BYTES, true, s);
  }

  // Story

  function PutFlag(f: bool): (b: seq<byte>)
    ensures |b| == 1
  {
    PutU8(if f then 1 else 0)
  }

  /** Only 0 and 1 are booleans. */
  function GetFlag(b: seq<byte>): (r: Parsed<bool>)
    ensures r.Got? ==> b == PutFlag(r.value) + r.rest
  {
    var (v, b1) :- GetU8(b);
    if v > 1 then NoParse else Got(v == 1, b1)
  }

  lemma FlagInverse(f: bool, s: seq<byte>)
    ensures GetFlag(PutFlag(f) + s) == Got(f, s)
  {
    U8Inverse(if f then 1 else 0, s);
  }

  /** Machine schema, story version, byte order, release. */
  function PutRelease(swapped: bool, release: nat): (b: seq<byte>)
    requires release <= U16_MAX
    ensures |b| == 8
  {
    PutU16(MACHINE_SCHEMA_VERSION) + (PutU16(0) + (PutU8(STORY_VERSION) + (PutFlag(swapped) + PutU16(release))))
  }

  function GetRelease(b: seq<byte>): (r: Parsed<(bool, nat)>) {
    var (schema, b1) :- GetU16(b);
    var (reserved, b2) :- GetU16(b1);
    var (version, b3) :- GetU8(b2);
    var (swapped, b4) :- GetFlag(b3);
    var (release, b5) :- GetU16(b4);
    if schema != MACHINE_SCHEMA_VERSION || reserved != 0 || version != STORY_VERSION then NoParse
    else Got((swapped, release), b5)
  }

  lemma ReleaseTail(swapped: bool, release: nat, s: seq<byte>)
    requires release <= U16_MAX
    ensures PutRelease(swapped, release) + s ==
      PutU16(MACHINE_SCHEMA_VERSION) + (PutU16(0) + (PutU8(STORY_VERSION) + (PutFlag(swapped) + (PutU16(release) + s))))
  {
    hide PutU8, PutU16, PutFlag;
  }

  lemma ReleaseSound(b: seq<byte>)
    requires GetRelease(b).Got?
    ensures var r := GetRelease(b); r.value.1 <= U16_MAX && b == PutRelease(r.value.0, r.value.1) + r.rest
  {
    hide PutU8, GetU8, PutU16, GetU16, PutFlag, GetFlag, PutRelease;
    var Got(v, rest) := GetRelease(b);
    ReleaseTail(v.0, v.1, rest);
  }

  lemma ReleaseInverse(swapped: bool, release: nat, s: seq<byte>)
    requires release <= U16_MAX
    ensures GetRelease(PutRelease(swapped, release) + s) == Got((swapped, release), s)
  {
    hide PutU8, GetU8, PutU16, GetU16, PutFlag, GetFlag, PutRelease;
    ReleaseTail(swapped, release, s);
    var t4 := PutU16(release) + s;
    var t3 := PutFlag(swapped) + t4;
    var t2 := PutU8(STORY_VERSION) + t3;
    var t1 := PutU16(0) + t2;
    U16Inverse(MACHINE_SCHEMA_VERSION, t1);
    U16Inverse(0, t2);
    U8Inverse(STORY_VERSION, t3);
    FlagInverse(swapped, t4);
    U16Inverse(release, s);
  }

  datatype Image = Image(serialLength: nat, checksum: nat, byteLength: nat, staticMemoryBase: nat)
  {
    predicate Fits() {
      serialLength < 0x100 && checksum <= U16_MAX && byteLength <= U32_MAX && staticMemoryBase <= U32_MAX
    }
  }

  function PutImage(i: Image): (b: seq<byte>)
    requires i.Fits()
    ensures |b| == 12
  {
    PutU8(i.serialLength) + (PutU8(0) + (PutU16(i.checksum) + (PutU32(i.byteLength) + PutU32(i.staticMemoryBase))))
  }

  function GetImage(b: seq<byte>): (r: Parsed<Image>) {
    var (serialLength, b1) :- GetU8(b);
    var (reserved, b2) :- GetU8(b1);
    var (checksum, b3) :- GetU16(b2);
    var (byteLength, b4) :- GetU32(b3);
    var (staticMemoryBase, b5) :- GetU32(b4);
    if reserved != 0 then NoParse else Got(Image(serialLength, checksum, byteLength, staticMemoryBase), b5)
  }

  lemma ImageTail(i: Image, s: seq<byte>)
    requires i.Fits()
    ensures PutImage(i) + s ==
      PutU8(i.serialLength) + (PutU8(0) + (PutU16(i.checksum) + (PutU32(i.byteLength) + (PutU32(i.staticMemoryBase) + s))))
  {
    hide PutU8, PutU16, PutU32;
  }

  lemma ImageSound(b: seq<byte>)
    requires GetImage(b).Got?
    ensures var r := GetImage(b); r.value.Fits() && b == PutImage(r.value) + r.rest
  {
    hide PutU8, GetU8, PutU16, GetU16, PutU32, GetU32, PutImage;
    var Got(v, rest) := GetImage(b);
    ImageTail(v, rest);
  }

  lemma ImageInverse(i: Image, s: seq<byte>)
    requires i.Fits()
    ensures GetImage(PutImage(i) + s) == Got(i, s)
  {
    hide PutU8, GetU8, PutU16, GetU16, PutU32, GetU32, PutImage;
    ImageTail(i, s);
    var t4 := PutU32(i.staticMemoryBase) + s;
    var t3 := PutU32(i.byteLength) + t4;
    var t2 := PutU16(i.checksum) + t3;
    var t1 := PutU8(0) + t2;
    U8Inverse(i.serialLength, t1);
    U8Inverse(0, t2);
    U16Inverse(i.checksum, t3);
    U32Inverse(i.byteLength, t4);
    U32Inverse(i.staticMemoryBase, s);
  }

  lemma {:induction false} AsciiLength(s: string)
    requires IsAscii(s)
    ensures TextBytes(s) == |s|
  {
    if s != "" {
      assert forall i :: 0 <= i < |s[1..]| ==> s[1..][i] == s[i + 1];
      AsciiLength(s[1..]);
    }
  }

  lemma AsciiConcat(s: string, t: string)
    requires IsAscii(s) && IsAscii(t)
    ensures IsAscii(s + t)
  {
  }

  lemma CommitIsAscii()
    ensures IsAscii(SOURCE_COMMIT)
  {
  }

  lemma ForkIsAscii()
    ensures IsAscii(FORK_SHA256)
  {
    var high, low := "a0a31ec97a78771229615c4311ea4209", "813e29a65df421f0e020b161447f1605";
    AsciiConcat(high, low);
  }

  lemma RuntimeIdFits()
    ensures 0 < TextBytes(RUNTIME_ID) <= MAX_IDENTITY_BYTES
  {
    assert IsAscii("dork-") && IsAscii("-fork-");
    CommitIsAscii();
    ForkIsAscii();
    hide Utf8.Encode, IsAscii;
    AsciiConcat("dork-", SOURCE_COMMIT);
    AsciiConcat("dork-" + SOURCE_COMMIT, "-fork-");
    AsciiConcat("dork-" + SOURCE_COMMIT + "-fork-", FORK_SHA256);
    AsciiLength(RUNTIME_ID);
  }

  lemma AdapterIdFits()
    ensures 0 < TextBytes(ADAPTER_ID) <= MAX_IDENTITY_BYTES
  {
    hide Utf8.Encode, TextBytes;
    assert IsAscii(ADAPTER_ID);
    AsciiLength(ADAPTER_ID);
    assert |ADAPTER_ID| == 29;
  }

  /** The two identities that the program writes fit their fields. */
  lemma DorkIdentities()
    ensures ValidIdentities(DORK)
  {
    hide TextBytes;
    RuntimeIdFits();
    AdapterIdFits();
  }

  function ImageOf(s: StoryInfo): Image {
    Image(|s.serial|, s.checksum, s.byteLength, s.staticMemoryBase)
  }

  function PutStory(s: StoryInfo): (b: seq<byte>)
    requires ValidStory(s)
    ensures |b| == 20 + SERIAL_BYTES
  {
    AsciiLength(s.serial);
    PutRelease(s.byteSwapped, s.release) + (PutImage(ImageOf(s)) + Utf8.Encode(s.serial))
  }

  function GetStory(b: seq<byte>): (r: Parsed<StoryInfo>)
    ensures r.Got? ==> ValidStory(r.value)
  {
    var (release, b1) :- GetRelease(b);
    var (image, b2) :- GetImage(b1);
    if image.byteLength < 64 || image.staticMemoryBase < 64 || image.staticMemoryBase > U16_MAX
      || image.staticMemoryBase > image.byteLength
    then NoParse
    else
      var (serial, b3) :- SnapshotFormat.GetText(b2, image.serialLength, SERIAL_BYTES, true);
      var s := StoryInfo(release.0, release.1, serial, image.checksum, image.byteLength, image.staticMemoryBase);
      if image.serialLength != SERIAL_BYTES || !ValidStory(s) then NoParse else Got(s, b3)
  }

  lemma StorySound(b: seq<byte>)
    requires GetStory(b).Got?
    ensures b == PutStory(GetStory(b).value) + GetStory(b).rest
  {
    hide GetRelease, PutRelease, GetImage, PutImage, SnapshotFormat.GetText, Utf8.Encode, IsAscii;
    ReleaseSound(b);
    var Got(release, b1) := GetRelease(b);
    ImageSound(b1);
    var Got(image, b2) := GetImage(b1);
    var Got(s, rest) := GetStory(b);
    AsciiLength(s.serial);
    assert image == ImageOf(s);
    var x, y, z := PutRelease(s.byteSwapped, s.release), PutImage(image), Utf8.Encode(s.serial);
    assert x + (y + (z + rest)) == (x + (y + z)) + rest;
  }

  lemma StoryInverse(s: StoryInfo, t: seq<byte>)
    requires ValidStory(s)
    ensures GetStory(PutStory(s) + t) == Got(s, t)
  {
    hide GetRelease, PutRelease, GetImage, PutImage, SnapshotFormat.GetText, Utf8.Encode, IsAscii;
    AsciiLength(s.serial);
    var t2 := Utf8.Encode(s.serial) + t;
    var t1 := PutImage(ImageOf(s)) + t2;
    assert PutStory(s) + t == PutRelease(s.byteSwapped, s.release) + t1;
    ReleaseInverse(s.byteSwapped, s.release, t1);
    ImageInverse(ImageOf(s), t2);
    SnapshotFormat.TextInverse(s.serial, SERIAL_BYTES, true, t);
  }

  // Configuration

  function PutFlags(c: MachineConfig): (b: seq<byte>)
    ensures |b| == 4
  {
    PutFlag(c.isTandy) + (PutFlag(c.strict) + (PutFlag(c.maxInstructions.Some?) + PutU8(0)))
  }

  function GetFlags(b: seq<byte>): (r: Parsed<(bool, bool, bool)>) {
    var (isTandy, b1) :- GetFlag(b);
    var (strict, b2) :- GetFlag(b1);
    var (limited, b3) :- GetFlag(b2);
    var (reserved, b4) :- GetU8(b3);
    if reserved != 0 then NoParse else Got((isTandy, strict, limited), b4)
  }

  function PayloadOf(c: MachineConfig): nat {
    if c.maxInstructions.Some? then c.maxInstructions.value else 0
  }

  function PutConfig(c: MachineConfig): (b: seq<byte>)
    requires ValidConfig(c)
    ensures |b| == 24
  {
    PutFlags(c) + (PutU64(PayloadOf(c)) + (PutU64(c.maxInstructionsPerTurn) + PutU32(c.ioCapabilities)))
  }

  /** No limit is a zero payload, a limit a positive one; nothing else is accepted. */
  function GetConfig(b: seq<byte>): (r: Parsed<MachineConfig>) {
    var (flags, b1) :- GetFlags(b);
    var (payload, b2) :- GetU64(b1);
    var (perTurn, b3) :- GetU64(b2);
    var (ioCapabilities, b4) :- GetU32(b3);
    if flags.2 != (payload > 0) || perTurn < 1 then NoParse
    else Got(MachineConfig(flags.0, flags.1, if flags.2 then Some(payload) else None, perTurn, ioCapabilities), b4)
  }

  lemma FlagsTail(c: MachineConfig, s: seq<byte>)
    ensures PutFlags(c) + s ==
      PutFlag(c.isTandy) + (PutFlag(c.strict) + (PutFlag(c.maxInstructions.Some?) + (PutU8(0) + s)))
  {
    hide PutFlag, PutU8;
  }

  lemma FlagsSound(b: seq<byte>, c: MachineConfig)
    requires GetFlags(b).Got? && GetFlags(b).value == (c.isTandy, c.strict, c.maxInstructions.Some?)
    ensures b == PutFlags(c) + GetFlags(b).rest
  {
    hide PutFlag, GetFlag, PutU8, GetU8, PutFlags;
    FlagsTail(c, GetFlags(b).rest);
  }

  lemma FlagsInverse(c: MachineConfig, s: seq<byte>)
    ensures GetFlags(PutFlags(c) + s) == Got((c.isTandy, c.strict, c.maxInstructions.Some?), s)
  {
    hide PutFlag, GetFlag, PutU8, GetU8, PutFlags;
    FlagsTail(c, s);
    var t3 := PutU8(0) + s;
    var t2 := PutFlag(c.maxInstructions.Some?) + t3;
    var t1 := PutFlag(c.strict) + t2;
    FlagInverse(c.isTandy, t1);
    FlagInverse(c.strict, t2);
    FlagInverse(c.maxInstructions.Some?, t3);
    U8Inverse(0, s);
  }

  lemma ConfigSound(b: seq<byte>)
    requires GetConfig(b).Got?
    ensures ValidConfig(GetConfig(b).value)
    ensures b == PutConfig(GetConfig(b).value) + GetConfig(b).rest
  {
    hide PutFlags, GetFlags, PutU64, GetU64, PutU32, GetU32;
    var Got(c, rest) := GetConfig(b);
    FlagsSound(b, c);
    var x, y, z := PutU64(PayloadOf(c)), PutU64(c.maxInstructionsPerTurn), PutU32(c.ioCapabilities);
    assert PutFlags(c) + (x + (y + (z + rest))) == (PutFlags(c) + (x + (y + z))) + rest;
  }

  lemma ConfigInverse(c: MachineConfig, s: seq<byte>)
    requires ValidConfig(c)
    ensures GetConfig(PutConfig(c) + s) == Got(c, s)
  {
    hide PutFlags, GetFlags, PutU64, GetU64, PutU32, GetU32;
    var t3 := PutU32(c.ioCapabilities) + s;
    var t2 := PutU64(c.maxInstructionsPerTurn) + t3;
    var t1 := PutU64(PayloadOf(c)) + t2;
    assert PutConfig(c) + s == PutFlags(c) + t1;
    FlagsInverse(c, t1);
    U64Inverse(PayloadOf(c), t2);
    U64Inverse(c.maxInstructionsPerTurn, t3);
    U32Inverse(c.ioCapabilities, s);
  }
}
