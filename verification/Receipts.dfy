/** The receipts kept in root custody by the one-launch journal and its lifecycle.

    SHA-256 over canonical JSON is symbolic: a digest is a term that holds what was
    hashed, so it is injective by construction.  Fields that every receipt fixes to a
    constant (version, operationId, the reconciliation handle) are part of the
    constructor; a file whose bytes are not one of these receipts is `Torn`. */
module Receipts {
  import opened Wrappers

  datatype Digest = Sha256(of: Content)

  datatype Content =
    | Unseen(id: nat)             // bytes that this model never looks at
    | Text(text: string)
    | Receipt(receipt: Record)

  const MAX_WALL_MS: int := 0x1F_FFFF_FFFF_FFFF   // (1 << 53) - 1
  const MAX_BYTES: nat := 65536
  const CONTAINMENT_MS: int := 300000
  const HANDLE: string := "turn:961534a5-8c94-487d-8e55-d324a54e821a:a2:g1:s256"
  const AGENT: string := "agt_hr-agent"
  const CUSTODIAN: string := "fixed-DS-owner"

  /** One file name of the custody directory. */
  datatype Kind =
    | Intent | LaunchAuthorization | BundleJson | LiveHandleIndex | BundleCommitment
    | PhaseSealed | PhaseLaunchAttempt | LaunchClaimed
    | PhaseStartup | PhaseConsumption | PhaseAbandoned | PhaseClosed | PhaseUnknown
    | KeyTombstone

  datatype Phase =
    | SealedNotAttempted | LaunchAttemptCommitted | StartupObserved
    | ConsumptionReadback | Abandoned | Closed | Unknown

  datatype Subject = Subject(
    turnExecutionId: string, runtimeEpoch: string, agentId: string, processGeneration: int)

  datatype HolderCheck = HolderCheck(
    executedAtWallMs: int, paths: seq<string>, openHolderCount: int)

  datatype Authorization = Authorization(
    hostId: string, startupNonce: string, handle: string, subject: Subject,
    subjectPreimage: Digest, consumingBinary: Digest, archive: Digest,
    outputs: seq<Digest>, holderCheck: HolderCheck, authorizedAtWallMs: int)

  datatype Cutover = Cutover(
    hostId: string, startupNonce: string, subjectPreimage: Digest,
    exclusiveWindow: Digest, sourcesInhibited: Digest, oldTreeQuiesced: Digest,
    launchAuthorization: Digest, consumingBinary: Digest,
    windowOpenedAtWallMs: int, oldTreeQuiescedAtWallMs: int, authorizedAtWallMs: int)

  datatype Census = Census(
    hostId: string, outputs: seq<Digest>, executedAtWallMs: int, runtimeTreeProcesses: int)

  datatype Bundle = Bundle(
    length: nat, handle: string, subject: Subject, retiredEpoch: string,
    cut: Cutover, deployedBinary: Digest, census: Census, holderCheck: HolderCheck)

  datatype Child = Child(pid: int, identity: Digest)

  datatype Ownership = Ownership(
    ownedChild: Option<Child>, windowIdentity: seq<int>, lockIdentity: seq<int>,
    lockOwnership: Digest, sourcesInhibitedReceipt: Digest,
    windowHeld: Option<bool>, lockHeld: Option<bool>, sourcesInhibited: Option<bool>)

  datatype Reason = ReadbackUnavailable | StartupUnavailable | CustodyContinuityUnknown

  datatype Observation =
    | StartupSeen(own: Ownership, launchAuthorization: Digest, consumingBinary: Digest,
                  challengeReceipt: Digest)
    | ConsumptionSeen(own: Ownership, validatedStore: Digest, validatorBinary: Digest,
                      settlementExact: bool, storeReadback: Digest)
    | Release(own: Ownership, childDisposition: Digest, sourceDisposition: Digest,
              windowRelease: Digest, lockDisposition: Digest,
              noLaunchReceipt: Option<Digest>, outcomeUnknown: bool)
    | Contained(own: Ownership, custodian: string, deadlineWallMs: int, reason: Reason)

  datatype Record =
    | IntentRec(subjectPreimage: Digest, nonceSha: Digest, atWallMs: int)
    | AuthorizationRec(intentSha: Digest, authorization: Authorization)
    | BundleRec(bundle: Bundle)
    | IndexRec(hostId: string, nonceSha: Digest, bundleSha: Digest)
    | CommitmentRec(hostId: string, startupNonce: string, subject: Subject,
                    subjectPreimage: Digest, authorizationSha: Digest,
                    bundleSha: Digest, bundleLength: nat, sealedAtWallMs: int)
    | ClaimRec(authorizationSha: Digest, commitmentSha: Digest, atWallMs: int)
    | PhaseRec(phase: Phase, hostId: string, nonceSha: Digest, commitmentSha: Digest,
               previousSha: Option<Digest>, atWallMs: int, observation: Option<Observation>)
    | TombstoneRec(phase: Phase, hostId: string, nonceSha: Digest, commitmentSha: Digest,
                   terminalSha: Digest, atWallMs: int)

  function Sha(r: Record): Digest { Sha256(Receipt(r)) }

  function ShaText(s: string): Digest { Sha256(Text(s)) }

  /** A file that exists: either the whole canonical receipt, or bytes that do not parse
      (a write that stopped early leaves its name behind). */
  datatype File = Torn | Whole(rec: Record)

  /** The custody directory.  Names are created exclusively and never removed. */
  type Store = map<Kind, File>

  /** `t` keeps every file of `s` as it is. */
  ghost predicate Extends(s: Store, t: Store) {
    forall k :: k in s ==> k in t && t[k] == s[k]
  }

  /** What the operating system did with one exclusive create, write, fsync. */
  datatype WriteOutcome =
    | Completed              // every byte written and synced
    | NotCreated             // failed, or the process died, before the name appeared
    | LeftTorn               // the name appeared, the bytes are incomplete
    | CompletedThenFailed    // the bytes are there, but a later sync or readback raised

  /** The directory after one exclusive create of `k`. */
  function Create(s: Store, k: Kind, r: Record, o: WriteOutcome): Store {
    if k in s || o.NotCreated? then s
    else s[k := if o.LeftTorn? then Torn else Whole(r)]
  }
}
