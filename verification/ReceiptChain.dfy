/** A CLOSED receipt vouches for every receipt before it, and its digest fixes all of them. */
module ReceiptChain {
  import opened Wrappers
  import opened Receipts
  import opened Journal
  import opened Lifecycle

  /** The whole chain behind a CLOSED receipt. */
  const CHAIN: set<Kind> := {
    Intent, LaunchAuthorization, BundleJson, LiveHandleIndex, BundleCommitment, PhaseSealed,
    PhaseLaunchAttempt, LaunchClaimed, PhaseStartup, PhaseConsumption, KeyTombstone, PhaseClosed}

  lemma SealChainReads(s: Store)
    requires Readback(s, PhaseLaunchAttempt).Some?
    ensures forall k :: k in {Intent, LaunchAuthorization, BundleJson, LiveHandleIndex, BundleCommitment, PhaseSealed} ==> Readback(s, k).Some?
  {
    ParentsRead(s, PhaseLaunchAttempt);
    assert {PhaseSealed, BundleCommitment} <= Parents(PhaseLaunchAttempt);
    ParentsRead(s, BundleCommitment);
    assert {LaunchAuthorization, LiveHandleIndex, BundleJson} <= Parents(BundleCommitment);
    ParentsRead(s, LaunchAuthorization);
    assert Intent in Parents(LaunchAuthorization);
  }

  lemma PhaseParentReads(s: Store, k: Kind)
    requires k in {PhaseStartup, PhaseConsumption, PhaseClosed} && Read(s, k).Some?
    ensures Read(s, ParentOf(s, k).value).Some?
    ensures Read(s, ParentOf(s, k).value).value.atWallMs < Read(s, k).value.atWallMs <= MAX_WALL_MS
    ensures Read(s, k).value.previousSha == Some(Sha(Read(s, ParentOf(s, k).value).value))
    ensures k == PhaseStartup ==> Readback(s, LaunchClaimed).Some?
    ensures k == PhaseClosed ==> Read(s, KeyTombstone) == Some(TombstoneFor(Read(s, k).value))
  {
    assert Admits(s, k, s[k].rec);
  }

  lemma ClaimReads(s: Store)
    requires Read(s, PhaseStartup).Some?
    ensures Readback(s, LaunchClaimed).Some?
  {
    PhaseParentReads(s, PhaseStartup);
  }

  /** If CLOSED reads back, so does every receipt of the chain. */
  lemma ClosedChainReads(s: Store)
    requires Read(s, PhaseClosed).Some?
    ensures forall k :: k in CHAIN ==> Read(s, k).Some?
  {
    PhaseParentReads(s, PhaseClosed);
    PhaseParentReads(s, PhaseConsumption);
    PhaseParentReads(s, PhaseStartup);
    ClaimReads(s);
    SealChainReads(s);
  }

  /** The time at which a receipt says its event happened. */
  function At(r: Record): int {
    match r
    case IntentRec(_, _, at) => at
    case AuthorizationRec(_, a) => a.authorizedAtWallMs
    case BundleRec(_) => 0
    case IndexRec(_, _, _) => 0
    case CommitmentRec(_, _, _, _, _, _, _, at) => at
    case ClaimRec(_, _, at) => at
    case PhaseRec(_, _, _, _, _, at, _) => at
    case TombstoneRec(_, _, _, _, _, at) => at
  }

  lemma AuthorizationTimes(s: Store)
    requires Readback(s, LaunchAuthorization).Some? && Readback(s, Intent).Some?
    ensures 0 <= At(Readback(s, Intent).value) < At(Readback(s, LaunchAuthorization).value)
  {
    assert Accepts(s, LaunchAuthorization, s[LaunchAuthorization].rec);
    assert Accepts(s, Intent, s[Intent].rec);
  }

  lemma CommitmentTimes(s: Store)
    requires Readback(s, BundleCommitment).Some? && Readback(s, LaunchAuthorization).Some?
    ensures At(Readback(s, LaunchAuthorization).value) < At(Readback(s, BundleCommitment).value)
  {
    assert Accepts(s, BundleCommitment, s[BundleCommitment].rec);
  }

  lemma SealedTimes(s: Store)
    requires Readback(s, PhaseSealed).Some? && Readback(s, BundleCommitment).Some?
    ensures At(Readback(s, BundleCommitment).value) == At(Readback(s, PhaseSealed).value)
  {
    assert Accepts(s, PhaseSealed, s[PhaseSealed].rec);
  }

  lemma AttemptTimes(s: Store)
    requires Readback(s, PhaseLaunchAttempt).Some? && Readback(s, PhaseSealed).Some?
    ensures At(Readback(s, PhaseSealed).value) < At(Readback(s, PhaseLaunchAttempt).value)
  {
    assert Accepts(s, PhaseLaunchAttempt, s[PhaseLaunchAttempt].rec);
  }

  lemma ClaimTimes(s: Store)
    requires Readback(s, LaunchClaimed).Some? && Readback(s, PhaseLaunchAttempt).Some?
    ensures At(Readback(s, LaunchClaimed).value) == At(Readback(s, PhaseLaunchAttempt).value)
  {
    assert Accepts(s, LaunchClaimed, s[LaunchClaimed].rec);
  }

  /** What the file of one kind says about time. */
  function Time(s: Store, k: Kind): int { if k in s && s[k].Whole? then At(s[k].rec) else 0 }

  lemma SealTimes(s: Store)
    requires Readback(s, LaunchClaimed).Some? && Readback(s, PhaseLaunchAttempt).Some?
    ensures 0 <= Time(s, Intent) < Time(s, LaunchAuthorization)
    ensures Time(s, LaunchAuthorization) < Time(s, BundleCommitment) == Time(s, PhaseSealed)
    ensures Time(s, PhaseSealed) < Time(s, PhaseLaunchAttempt) == Time(s, LaunchClaimed)
  {
    SealChainReads(s);
    AuthorizationTimes(s); CommitmentTimes(s); SealedTimes(s); AttemptTimes(s); ClaimTimes(s);
  }

  lemma PhaseTimes(s: Store, k: Kind)
    requires k in {PhaseStartup, PhaseConsumption, PhaseClosed} && Read(s, k).Some?
    ensures Time(s, ParentOf(s, k).value) < Time(s, k) <= MAX_WALL_MS
    ensures k == PhaseClosed ==> Time(s, KeyTombstone) == Time(s, PhaseClosed)
  {
    PhaseParentReads(s, k);
  }

  /** ... and their times are in the order of the protocol. */
  lemma ClosedChainIsOrdered(s: Store)
    requires Read(s, PhaseClosed).Some?
    ensures 0 <= Time(s, Intent) < Time(s, LaunchAuthorization)
    ensures Time(s, LaunchAuthorization) < Time(s, BundleCommitment) == Time(s, PhaseSealed)
    ensures Time(s, PhaseSealed) < Time(s, PhaseLaunchAttempt) == Time(s, LaunchClaimed)
    ensures Time(s, PhaseLaunchAttempt) < Time(s, PhaseStartup) < Time(s, PhaseConsumption)
    ensures Time(s, PhaseConsumption) < Time(s, PhaseClosed) == Time(s, KeyTombstone) <= MAX_WALL_MS
  {
    PhaseParentReads(s, PhaseClosed);
    PhaseParentReads(s, PhaseConsumption);
    PhaseParentReads(s, PhaseStartup);
    PhaseTimes(s, PhaseClosed); PhaseTimes(s, PhaseConsumption); PhaseTimes(s, PhaseStartup);
    SealTimes(s);
  }

  predicate Same(s: Store, t: Store, k: Kind) { k in s && k in t && s[k] == t[k] }

  lemma CommitmentDetermines(s: Store, t: Store)
    requires Readback(s, BundleCommitment).Some? && Readback(t, BundleCommitment) == Readback(s, BundleCommitment)
    ensures forall k :: k in {Intent, LaunchAuthorization, BundleJson, LiveHandleIndex, BundleCommitment} ==> Same(s, t, k)
    ensures Readback(t, LaunchAuthorization) == Readback(s, LaunchAuthorization)
  {
    ParentsRead(s, BundleCommitment); ParentsRead(t, BundleCommitment);
    assert {LaunchAuthorization, LiveHandleIndex, BundleJson} <= Parents(BundleCommitment);
    assert Accepts(s, BundleCommitment, s[BundleCommitment].rec) && Accepts(t, BundleCommitment, t[BundleCommitment].rec);
    assert Accepts(s, LiveHandleIndex, s[LiveHandleIndex].rec) && Accepts(t, LiveHandleIndex, t[LiveHandleIndex].rec);
    AuthorizationDetermines(s, t);
  }

  lemma AuthorizationDetermines(s: Store, t: Store)
    requires Readback(s, LaunchAuthorization).Some? && Readback(t, LaunchAuthorization) == Readback(s, LaunchAuthorization)
    ensures Readback(s, Intent).Some? && Readback(t, Intent) == Readback(s, Intent)
  {
    assert Accepts(s, LaunchAuthorization, s[LaunchAuthorization].rec) && Accepts(t, LaunchAuthorization, t[LaunchAuthorization].rec);
  }

  lemma AttemptDetermines(s: Store, t: Store)
    requires Readback(s, PhaseLaunchAttempt).Some? && Readback(t, PhaseLaunchAttempt) == Readback(s, PhaseLaunchAttempt)
    ensures Readback(s, BundleCommitment).Some? && Readback(t, BundleCommitment) == Readback(s, BundleCommitment)
    ensures Same(s, t, PhaseSealed) && Same(s, t, PhaseLaunchAttempt)
  {
    assert Accepts(s, PhaseLaunchAttempt, s[PhaseLaunchAttempt].rec) && Accepts(t, PhaseLaunchAttempt, t[PhaseLaunchAttempt].rec);
  }

  lemma ClaimDetermined(s: Store, t: Store)
    requires Readback(s, LaunchClaimed).Some? && Readback(t, LaunchClaimed).Some?
    requires Readback(t, LaunchAuthorization) == Readback(s, LaunchAuthorization)
    requires Readback(t, BundleCommitment) == Readback(s, BundleCommitment)
    requires Readback(t, PhaseLaunchAttempt) == Readback(s, PhaseLaunchAttempt)
    ensures Same(s, t, LaunchClaimed)
  {
    assert Accepts(s, LaunchClaimed, s[LaunchClaimed].rec) && Accepts(t, LaunchClaimed, t[LaunchClaimed].rec);
  }

  lemma AttemptChainDetermined(s: Store, t: Store)
    requires Readback(s, PhaseLaunchAttempt).Some? && Readback(t, PhaseLaunchAttempt) == Readback(s, PhaseLaunchAttempt)
    requires Readback(s, LaunchClaimed).Some? && Readback(t, LaunchClaimed).Some?
    ensures forall k :: k in {Intent, LaunchAuthorization, BundleJson, LiveHandleIndex, BundleCommitment} ==> Same(s, t, k)
    ensures forall k :: k in {PhaseSealed, PhaseLaunchAttempt, LaunchClaimed} ==> Same(s, t, k)
  {
    AttemptDetermines(s, t);
    CommitmentDetermines(s, t);
    ClaimDetermined(s, t);
  }

  lemma PhaseDetermines(s: Store, t: Store, k: Kind)
    requires k in {PhaseStartup, PhaseConsumption, PhaseClosed} && Read(s, k).Some? && Read(t, k) == Read(s, k)
    ensures Read(s, ParentOf(s, k).value).Some?
    ensures Read(t, ParentOf(s, k).value) == Read(s, ParentOf(s, k).value)
    ensures Same(s, t, k)
    ensures k == PhaseClosed ==> Same(s, t, KeyTombstone)
  {
    PhaseParentReads(s, k); PhaseParentReads(t, k);
  }

  /** The digest of a CLOSED receipt alone determines every file of the chain, back to the intent
      and the bundle bytes: two directories that agree on it agree on all of them. */
  lemma ClosedDigestDeterminesChain(s: Store, t: Store)
    requires Read(s, PhaseClosed).Some? && Read(t, PhaseClosed).Some?
    requires Sha(Read(s, PhaseClosed).value) == Sha(Read(t, PhaseClosed).value)
    ensures forall k :: k in CHAIN ==> Same(s, t, k)
  {
    PhaseDetermines(s, t, PhaseClosed);
    PhaseDetermines(s, t, PhaseConsumption);
    PhaseDetermines(s, t, PhaseStartup);
    ClaimReads(s); ClaimReads(t);
    AttemptChainDetermined(s, t);
  }
}
