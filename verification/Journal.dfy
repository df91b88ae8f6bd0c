/** `journal.py`: validated readback of the launch receipts, the seals and the one launch claim. */
module Journal {
  import opened Wrappers
  import opened Receipts

  // ---------- validation ----------

  predicate ValidAuthorization(a: Authorization, intent: Record)
    requires intent.IntentRec?
  {
    && a.hostId != ""
    && ShaText(a.startupNonce) == intent.nonceSha
    && a.subjectPreimage == intent.subjectPreimage
    && |a.outputs| == 2
    && a.handle == HANDLE
    && a.subject.turnExecutionId == HANDLE
    && a.subject.agentId == AGENT
    && a.subject.runtimeEpoch != ""
    && a.subject.processGeneration == 1
    && intent.atWallMs < a.authorizedAtWallMs <= MAX_WALL_MS
    && a.holderCheck.openHolderCount == 0
    && 0 <= a.holderCheck.executedAtWallMs < a.authorizedAtWallMs
    && 1 <= |a.holderCheck.paths| <= 16
    && forall p :: p in a.holderCheck.paths ==> 0 < |p| <= 512 && p[0] == '/'
  }

  predicate WallMs(t: int) { 0 <= t <= MAX_WALL_MS }

  predicate ValidBundle(b: Bundle, a: Authorization, authorizationSha: Digest) {
    && 0 < b.length <= MAX_BYTES
    && b.handle == a.handle && b.subject == a.subject
    && b.retiredEpoch == a.subject.runtimeEpoch
    && b.cut.hostId == a.hostId
    && b.cut.startupNonce == a.startupNonce
    && b.cut.subjectPreimage == a.subjectPreimage
    && b.cut.launchAuthorization == authorizationSha
    && b.cut.consumingBinary == a.consumingBinary
    && WallMs(b.cut.windowOpenedAtWallMs)
    && WallMs(b.cut.oldTreeQuiescedAtWallMs)
    && WallMs(b.cut.authorizedAtWallMs)
    && b.cut.windowOpenedAtWallMs < b.cut.oldTreeQuiescedAtWallMs
         < b.cut.authorizedAtWallMs == a.authorizedAtWallMs
    && b.deployedBinary == a.consumingBinary
    && b.census.hostId == a.hostId
    && b.census.outputs == a.outputs
    && b.census.runtimeTreeProcesses == 0
    && b.cut.oldTreeQuiescedAtWallMs < b.census.executedAtWallMs < b.cut.authorizedAtWallMs
    && b.holderCheck == a.holderCheck
    && b.cut.oldTreeQuiescedAtWallMs < b.holderCheck.executedAtWallMs < b.cut.authorizedAtWallMs
  }

  /** A phase receipt under a given commitment. */
  function PhaseUnder(c: Record, phase: Phase, at: int, previous: Option<Digest>,
                      observation: Option<Observation> := None): (r: Record)
    requires c.CommitmentRec?
    ensures r.PhaseRec?
  {
    PhaseRec(phase, c.hostId, ShaText(c.startupNonce), Sha(c), previous, at, observation)
  }

  // ---------- readback ----------

  /** Every readback only asks for receipts of smaller rank. */
  function Rank(k: Kind): nat {
    match k
    case Intent => 0
    case BundleJson => 0
    case LaunchAuthorization => 1
    case LiveHandleIndex => 2
    case BundleCommitment => 3
    case PhaseSealed => 4
    case PhaseLaunchAttempt => 5
    case LaunchClaimed => 6
    case _ => 7
  }

  predicate HasShape(k: Kind, r: Record) {
    match k
    case Intent => r.IntentRec?
    case LaunchAuthorization => r.AuthorizationRec?
    case BundleJson => r.BundleRec?
    case LiveHandleIndex => r.IndexRec?
    case BundleCommitment => r.CommitmentRec?
    case LaunchClaimed => r.ClaimRec?
    case KeyTombstone => r.TombstoneRec?
    case _ => r.PhaseRec?
  }

  /** The validated receipt of one kind, or nothing. */
  function Readback(s: Store, k: Kind): (r: Option<Record>)
    ensures r.Some? ==> k in s && s[k] == Whole(r.value) && HasShape(k, r.value)
    decreases Rank(k), |s|
  {
    if k !in s || s[k].Torn? || !HasShape(k, s[k].rec) then None
    else if Accepts(s, k, s[k].rec) then Some(s[k].rec) else None
  }

  // What each kind checks against the receipts it reads back first.

  predicate AuthorizationOk(r: Record, intent: Option<Record>)
    requires r.AuthorizationRec? && (intent.Some? ==> intent.value.IntentRec?)
  {
    intent.Some? && r.intentSha == Sha(intent.value) && ValidAuthorization(r.authorization, intent.value)
  }

  predicate IndexOk(r: Record, authorization: Option<Record>)
    requires r.IndexRec? && (authorization.Some? ==> authorization.value.AuthorizationRec?)
  {
    && authorization.Some?
    && r.hostId == authorization.value.authorization.hostId
    && r.nonceSha == ShaText(authorization.value.authorization.startupNonce)
  }

  predicate CommitmentOk(r: Record, authorization: Option<Record>, index: Option<Record>, bundle: Option<Record>)
    requires r.CommitmentRec?
    requires authorization.Some? ==> authorization.value.AuthorizationRec?
    requires index.Some? ==> index.value.IndexRec?
    requires bundle.Some? ==> bundle.value.BundleRec?
  {
    && authorization.Some? && index.Some? && bundle.Some?
    && var a := authorization.value.authorization;
    && r.hostId == a.hostId
    && r.startupNonce == a.startupNonce
    && r.subject == a.subject
    && r.subjectPreimage == a.subjectPreimage
    && r.authorizationSha == Sha(authorization.value)
    && r.bundleSha == index.value.bundleSha
    && r.bundleSha == Sha(bundle.value)
    && r.bundleLength == bundle.value.bundle.length
    && a.authorizedAtWallMs < r.sealedAtWallMs <= MAX_WALL_MS
  }

  predicate SealedOk(r: Record, commitment: Option<Record>)
    requires r.PhaseRec? && (commitment.Some? ==> commitment.value.CommitmentRec?)
  {
    && commitment.Some?
    && r == PhaseUnder(commitment.value, SealedNotAttempted, r.atWallMs, None)
    && r.atWallMs == commitment.value.sealedAtWallMs
  }

  predicate AttemptOk(r: Record, sealed: Option<Record>, commitment: Option<Record>)
    requires r.PhaseRec?
    requires sealed.Some? ==> sealed.value.PhaseRec?
    requires commitment.Some? ==> commitment.value.CommitmentRec?
  {
    && sealed.Some? && commitment.Some?
    && r == PhaseUnder(commitment.value, LaunchAttemptCommitted, r.atWallMs, Some(Sha(sealed.value)))
    && sealed.value.atWallMs < r.atWallMs <= MAX_WALL_MS
  }

  predicate ClaimedOk(r: Record, authorization: Option<Record>, commitment: Option<Record>, attempt: Option<Record>)
    requires r.ClaimRec?
    requires commitment.Some? ==> commitment.value.CommitmentRec?
    requires attempt.Some? ==> attempt.value.PhaseRec?
  {
    && authorization.Some? && commitment.Some? && attempt.Some?
    && r.authorizationSha == Sha(authorization.value)
    && r.commitmentSha == Sha(commitment.value)
    && r.atWallMs == attempt.value.atWallMs
    && r.atWallMs > commitment.value.sealedAtWallMs
  }

  /** The checks that readback of kind `k` makes on a parsed receipt. */
  predicate Accepts(s: Store, k: Kind, r: Record)
    requires HasShape(k, r)
    decreases Rank(k), |s|, 0
  {
    match k
    case Intent => r.atWallMs >= 0
    case BundleJson => 0 < r.bundle.length <= MAX_BYTES
    case LaunchAuthorization => AuthorizationOk(r, Readback(s, Intent))
    case LiveHandleIndex => IndexOk(r, Readback(s, LaunchAuthorization))
    case BundleCommitment =>
      CommitmentOk(r, Readback(s, LaunchAuthorization), Readback(s, LiveHandleIndex), Readback(s, BundleJson))
    case PhaseSealed => SealedOk(r, Readback(s, BundleCommitment))
    case PhaseLaunchAttempt => AttemptOk(r, Readback(s, PhaseSealed), Readback(s, BundleCommitment))
    case LaunchClaimed =>
      ClaimedOk(r, Readback(s, LaunchAuthorization), Readback(s, BundleCommitment), Readback(s, PhaseLaunchAttempt))
    case _ => false                 // not a journal kind
  }

  /** The receipts that readback of `k` reads back itself. */
  function Parents(k: Kind): (ps: set<Kind>)
    ensures forall p :: p in ps ==> Rank(p) < Rank(k)
  {
    match k
    case LaunchAuthorization => {Intent}
    case LiveHandleIndex => {LaunchAuthorization}
    case BundleCommitment => {LaunchAuthorization, LiveHandleIndex, BundleJson}
    case PhaseSealed => {BundleCommitment}
    case PhaseLaunchAttempt => {PhaseSealed, BundleCommitment}
    case LaunchClaimed => {LaunchAuthorization, BundleCommitment, PhaseLaunchAttempt}
    case _ => {}
  }

  /** Readback looks at its own file and at the readback of its parents, and at nothing else. */
  lemma AcceptsByParents(s: Store, t: Store, k: Kind, r: Record)
    requires HasShape(k, r)
    requires forall p :: p in Parents(k) ==> Readback(s, p) == Readback(t, p)
    ensures Accepts(s, k, r) == Accepts(t, k, r)
  {
  }

  lemma ParentsRead(s: Store, k: Kind)
    requires Readback(s, k).Some?
    ensures forall p :: p in Parents(k) ==> Readback(s, p).Some?
  {
  }

  /** A receipt that reads back keeps reading back, with the same content, as files are added. */
  lemma {:induction false} ReadbackStable(s: Store, t: Store, k: Kind)
    requires Extends(s, t) && Readback(s, k).Some?
    ensures Readback(t, k) == Readback(s, k)
    decreases Rank(k)
  {
    ParentsRead(s, k);
    forall p | p in Parents(k) ensures Readback(s, p) == Readback(t, p) {
      ReadbackStable(s, t, p);
    }
    AcceptsByParents(s, t, k, s[k].rec);
  }

  // ---------- writes ----------

  /** `write_once`: exclusive create, sync, then the receipt must read back as written. */
  predicate WriteOk(s: Store, k: Kind, r: Record, o: WriteOutcome) {
    k !in s && o.Completed? && Readback(Create(s, k, r, o), k) == Some(r)
  }

  /** Custody as one process sees it: the directory, and the volatile `_fresh_claim` list. */
  datatype World = World(files: Store, tokens: seq<Digest>)

  /** What one call left behind, and the digest it returned if it did not raise. */
  datatype Outcome = Outcome(world: World, digest: Option<Digest>)

  function Raised(w: World): Outcome { Outcome(w, None) }

  /** A single `write_once` as the whole effect of a call. */
  function WriteReceipt(w: World, k: Kind, r: Record, o: WriteOutcome): Outcome {
    Outcome(w.(files := Create(w.files, k, r, o)),
            if WriteOk(w.files, k, r, o) then Some(Sha(r)) else None)
  }

  function SealIntent(w: World, nonce: string, preimage: Digest, at: int, o: WriteOutcome): Outcome {
    if 16 <= |nonce| <= 128 && WallMs(at)
    then WriteReceipt(w, Intent, IntentRec(preimage, ShaText(nonce), at), o)
    else Raised(w)
  }

  function SealAuthorization(w: World, a: Authorization, o: WriteOutcome): Outcome {
    var intent := Readback(w.files, Intent);
    if intent.Some? && ValidAuthorization(a, intent.value)
    then WriteReceipt(w, LaunchAuthorization, AuthorizationRec(Sha(intent.value), a), o)
    else Raised(w)
  }

  function IndexFor(a: Authorization, b: Bundle): Record {
    IndexRec(a.hostId, ShaText(a.startupNonce), Sha(BundleRec(b)))
  }

  function CommitmentFor(authorization: Record, b: Bundle, at: int): Record
    requires authorization.AuthorizationRec?
  {
    var a := authorization.authorization;
    CommitmentRec(a.hostId, a.startupNonce, a.subject, a.subjectPreimage,
                  Sha(authorization), Sha(BundleRec(b)), b.length, at)
  }

  /** Whether the sealing call gets past its checks, before the first write. */
  predicate SealAdmitted(s: Store, b: Bundle, at: int) {
    var authorization := Readback(s, LaunchAuthorization);
    && authorization.Some?
    && ValidBundle(b, authorization.value.authorization, Sha(authorization.value))
    && authorization.value.authorization.authorizedAtWallMs < at <= MAX_WALL_MS
  }

  /** The four write outcomes of one sealing call. */
  datatype SealIO = SealIO(bundle: WriteOutcome, index: WriteOutcome, commitment: WriteOutcome, phase: WriteOutcome)

  /** `seal_bundle_commitment`: bundle, index, commitment, phase; only then the fresh token. */
  function SealBundle(w: World, b: Bundle, at: int, io: SealIO): Outcome {
    if !SealAdmitted(w.files, b, at) then Raised(w) else
    var authorization := Readback(w.files, LaunchAuthorization).value;
    var s0 := w.files;
    var s1 := Create(s0, BundleJson, BundleRec(b), io.bundle);
    if !WriteOk(s0, BundleJson, BundleRec(b), io.bundle) then Raised(w.(files := s1)) else
    var index := IndexFor(authorization.authorization, b);
    var s2 := Create(s1, LiveHandleIndex, index, io.index);
    if !WriteOk(s1, LiveHandleIndex, index, io.index) then Raised(w.(files := s2)) else
    var commitment := CommitmentFor(authorization, b, at);
    var s3 := Create(s2, BundleCommitment, commitment, io.commitment);
    if !WriteOk(s2, BundleCommitment, commitment, io.commitment) then Raised(w.(files := s3)) else
    var phase := PhaseUnder(commitment, SealedNotAttempted, at, None);
    var s4 := Create(s3, PhaseSealed, phase, io.phase);
    if !WriteOk(s3, PhaseSealed, phase, io.phase) then Raised(w.(files := s4)) else
    Outcome(World(s4, [Sha(commitment)]), Some(Sha(commitment)))
  }

  /** Whether a claim gets past its checks.  Note that it never looks for terminal receipts. */
  predicate ClaimAdmitted(w: World, at: int) {
    var authorization := Readback(w.files, LaunchAuthorization);
    var commitment := Readback(w.files, BundleCommitment);
    && authorization.Some? && commitment.Some?
    && w.tokens != [] && w.tokens[|w.tokens| - 1] == Sha(commitment.value)
    && Readback(w.files, PhaseSealed).Some?
    && commitment.value.sealedAtWallMs < at <= MAX_WALL_MS
  }

  function AttemptFor(s: Store, at: int): Record
    requires Readback(s, BundleCommitment).Some? && Readback(s, PhaseSealed).Some?
  {
    PhaseUnder(Readback(s, BundleCommitment).value, LaunchAttemptCommitted, at,
               Some(Sha(Readback(s, PhaseSealed).value)))
  }

  /** `claim_one_launch`: the token is consumed first, whatever follows. */
  function ClaimLaunch(w: World, at: int, io: (WriteOutcome, WriteOutcome)): Outcome {
    var popped := w.(tokens := if w.tokens == [] then [] else w.tokens[..|w.tokens| - 1]);
    if !ClaimAdmitted(w, at) then Raised(popped) else
    var attempt := AttemptFor(w.files, at);
    var s1 := Create(w.files, PhaseLaunchAttempt, attempt, io.0);
    if !WriteOk(w.files, PhaseLaunchAttempt, attempt, io.0) then Raised(popped.(files := s1)) else
    var claim := ClaimRec(Sha(Readback(w.files, LaunchAuthorization).value),
                          Sha(Readback(w.files, BundleCommitment).value), at);
    WriteReceipt(popped.(files := s1), LaunchClaimed, claim, io.1)
  }
}
