/** The requests and responses between the host adapter and the worker runtime. */
module Messages {
  import opened Bytes
  import opened EngineTypes
  import Journal
  import SnapshotFormat
  import Text

  const MAX_ID_BYTES: nat := 128
  const MAX_SNAPSHOT_BYTES: nat := SnapshotFormat.MAX_TOTAL_BYTES

  datatype Compatibility = Compatibility(
    storyId: string, storySha256: string,
    runtimeId: string, runtimeVersion: string, runtimeSha256: string,
    adapterId: string, adapterVersion: string,
    snapshotSchemaVersion: nat)

  datatype EngineSnapshot = EngineSnapshot(bytes: seq<byte>, sha256: string, revision: nat, compatibility: Compatibility)

  datatype RestoreRejection = IncompatibleSnapshot | CorruptSnapshot

  datatype RestoreStatus = Restored | NotRestored(rejection: RestoreRejection)

  datatype Request =
    | Boot(storyId: string, artifactSha256: string)
    | Execute(input: ExecuteRequest)
    | Snapshot
    | Restore(snapshot: EngineSnapshot)
    | Inspect

  datatype ErrorCode = InvalidRequest | NotBooted | AlreadyBooted | InternalError

  datatype Response =
    | BootDone(revision: nat, output: string, boundary: Boundary, compatibility: Compatibility)
    | ExecuteDone(result: ExecuteResult)
    | SnapshotDone(snapshot: EngineSnapshot)
    | RestoreDone(status: RestoreStatus, revision: nat, output: string, boundary: Boundary)
    | InspectDone(state: PublicState)
    | Error(code: ErrorCode)

  datatype RequestMessage = RequestMessage(messageId: string, request: Request)

  datatype ResponseMessage = ResponseMessage(messageId: string, response: Response)

  /** An identifier as the runtime accepts it. */
  predicate BoundedId(s: string) {
    0 < Journal.TextBytes(s) <= MAX_ID_BYTES && !Text.HasControl(s)
  }

  predicate IsHexDigit(c: char) {
    '0' <= c <= '9' || 'a' <= c <= 'f'
  }

  predicate IsSha256(s: string) {
    |s| == 64 && forall i :: 0 <= i < 64 ==> IsHexDigit(s[i])
  }

  /** The runtime's check on the compatibility record of an incoming snapshot. */
  predicate WellFormedCompatibility(c: Compatibility) {
    && BoundedId(c.storyId) && IsSha256(c.storySha256)
    && BoundedId(c.runtimeId) && BoundedId(c.runtimeVersion) && IsSha256(c.runtimeSha256)
    && BoundedId(c.adapterId) && BoundedId(c.adapterVersion)
    && 1 <= c.snapshotSchemaVersion <= MAX_SAFE
  }
}
