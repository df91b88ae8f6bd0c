/** What the journal receipts say, spelled out on the stored fields, and what a claim costs. */
module JournalFacts {
  import opened Wrappers
  import opened Receipts
  import opened Journal
  import opened Lifecycle
  import opened LaunchSafety

  function Named(r: Record): Digest { Sha256(Receipt(r)) }

  /** An authorization that reads back answers the intent on disk. */
  lemma AuthorizationSpelledOut(s: Store)
    requires Readback(s, LaunchAuthorization).Some?
    ensures Readback(s, Intent).Some?
    ensures var r, i := Readback(s, LaunchAuthorization).value, Readback(s, Intent).value;
      && r.AuthorizationRec? && i.IntentRec? && r.intentSha == Named(i)
      && var a := r.authorization;
      && Sha256(Text(a.startupNonce)) == i.nonceSha && a.subjectPreimage == i.subjectPreimage
      && a.handle == a.subject.turnExecutionId == "turn:961534a5-8c94-487d-8e55-d324a54e821a:a2:g1:s256"
      && a.subject.agentId == "agt_hr-agent" && a.subject.processGeneration == 1
      && i.atWallMs < a.authorizedAtWallMs <= 9007199254740991
      && a.hostId != "" && a.subject.runtimeEpoch != "" && |a.outputs| == 2
      && 1 <= |a.holderCheck.paths| <= 16 && (forall p <- a.holderCheck.paths :: 0 < |p| <= 512 && p[0] == '/')
      && a.holderCheck.openHolderCount == 0 && 0 <= a.holderCheck.executedAtWallMs < a.authorizedAtWallMs
  {
    assert Accepts(s, LaunchAuthorization, s[LaunchAuthorization].rec);
  }

  /** A commitment that reads back names the authorization and the bundle on disk, and copies the subject. */
  lemma CommitmentSpelledOut(s: Store)
    requires Readback(s, BundleCommitment).Some?
    ensures Readback(s, LaunchAuthorization).Some? && Readback(s, BundleJson).Some? && Readback(s, LiveHandleIndex).Some?
    ensures var c, r := Readback(s, BundleCommitment).value, Readback(s, LaunchAuthorization).value;
      var b, x := Readback(s, BundleJson).value, Readback(s, LiveHandleIndex).value;
      && c.CommitmentRec? && r.AuthorizationRec? && b.BundleRec? && x.IndexRec?
      && c.authorizationSha == Named(r) && c.bundleSha == Named(b) == x.bundleSha && c.bundleLength == b.bundle.length
      && c.hostId == r.authorization.hostId == x.hostId && c.startupNonce == r.authorization.startupNonce
      && x.nonceSha == Sha256(Text(c.startupNonce))
      && c.subject == r.authorization.subject && c.subjectPreimage == r.authorization.subjectPreimage
      && r.authorization.authorizedAtWallMs < c.sealedAtWallMs <= 9007199254740991
  {
    assert Accepts(s, BundleCommitment, s[BundleCommitment].rec);
    assert Accepts(s, LiveHandleIndex, s[LiveHandleIndex].rec);
    hide ValidAuthorization, ValidBundle;
  }

  /** The phase receipts of the journal: the seal at the time of the commitment, and the attempt after it. */
  lemma SealedSpelledOut(s: Store)
    requires Readback(s, PhaseSealed).Some?
    ensures Readback(s, BundleCommitment).Some? && Readback(s, BundleCommitment).value.CommitmentRec?
    ensures var c := Readback(s, BundleCommitment).value;
      Readback(s, PhaseSealed).value == PhaseRec(SealedNotAttempted, c.hostId, Sha256(Text(c.startupNonce)), Named(c),
                                                 None, c.sealedAtWallMs, None)
  {
    assert Accepts(s, PhaseSealed, s[PhaseSealed].rec);
  }

  lemma AttemptSpelledOut(s: Store)
    requires Readback(s, PhaseLaunchAttempt).Some?
    ensures Readback(s, BundleCommitment).Some? && Readback(s, BundleCommitment).value.CommitmentRec?
    ensures Readback(s, PhaseSealed).Some?
    ensures var c, p, r := Readback(s, BundleCommitment).value, Readback(s, PhaseSealed).value, Readback(s, PhaseLaunchAttempt).value;
      && r.PhaseRec? && p.PhaseRec? && p.atWallMs < r.atWallMs <= 9007199254740991
      && r == PhaseRec(LaunchAttemptCommitted, c.hostId, Sha256(Text(c.startupNonce)), Named(c), Some(Named(p)), r.atWallMs, None)
  {
    assert Accepts(s, PhaseLaunchAttempt, s[PhaseLaunchAttempt].rec);
  }

  /** A claim that reads back names the authorization and the commitment, at the time of the attempt. */
  lemma ClaimSpelledOut(s: Store)
    requires Readback(s, LaunchClaimed).Some?
    ensures Readback(s, LaunchAuthorization).Some? && Readback(s, BundleCommitment).Some? && Readback(s, PhaseLaunchAttempt).Some?
    ensures var r, a := Readback(s, LaunchClaimed).value, Readback(s, PhaseLaunchAttempt).value;
      && a.PhaseRec?
      && r == ClaimRec(Named(Readback(s, LaunchAuthorization).value), Named(Readback(s, BundleCommitment).value), a.atWallMs)
  {
    assert Accepts(s, LaunchClaimed, s[LaunchClaimed].rec);
    hide Accepts;
  }

  /** A seal that returned agreed with the authorization in everything that they share, in time order. */
  lemma SealedBundleAgrees(w: World, b: Bundle, at: int, io: SealIO)
    requires SealBundle(w, b, at, io).digest.Some?
    ensures Readback(w.files, LaunchAuthorization).Some? && Readback(w.files, LaunchAuthorization).value.AuthorizationRec?
    ensures var r := Readback(w.files, LaunchAuthorization).value; var a := r.authorization;
      && b.cut.launchAuthorization == Named(r)
      && b.handle == a.handle && b.subject == a.subject && b.retiredEpoch == a.subject.runtimeEpoch
      && b.cut.hostId == b.census.hostId == a.hostId && b.cut.startupNonce == a.startupNonce
      && b.cut.subjectPreimage == a.subjectPreimage && b.cut.consumingBinary == b.deployedBinary == a.consumingBinary
      && b.census.outputs == a.outputs && b.census.runtimeTreeProcesses == 0 && b.holderCheck == a.holderCheck
      && 0 <= b.cut.windowOpenedAtWallMs < b.cut.oldTreeQuiescedAtWallMs
      && b.cut.oldTreeQuiescedAtWallMs < b.census.executedAtWallMs < b.cut.authorizedAtWallMs
      && b.cut.oldTreeQuiescedAtWallMs < b.holderCheck.executedAtWallMs < b.cut.authorizedAtWallMs
      && b.cut.authorizedAtWallMs == a.authorizedAtWallMs < at
      && 0 < b.length <= 65536
  {
    hide Accepts, WriteOk;
  }

  // ---------- what calls do to the token ----------

  /** In reachable states every claim, admitted or not, leaves no token. */
  lemma ClaimSpendsToken(run: seq<Event>, at: int, io: (WriteOutcome, WriteOutcome))
    ensures ClaimLaunch(Exec(START, run), at, io).world.tokens == []
  {
    InvExec(START, run);
    hide Accepts, Readback;
  }

  /** Only a seal that returns leaves a token, and it names the commitment that the seal wrote. */
  lemma SealLeavesToken(w: World, b: Bundle, at: int, io: SealIO)
    ensures SealBundle(w, b, at, io).digest.Some? ==>
              && SealBundle(w, b, at, io).world.tokens == [SealBundle(w, b, at, io).digest.value]
              && BundleCommitment in SealBundle(w, b, at, io).world.files
              && SealBundle(w, b, at, io).world.files[BundleCommitment].Whole?
              && SealBundle(w, b, at, io).digest.value == Named(SealBundle(w, b, at, io).world.files[BundleCommitment].rec)
    ensures SealBundle(w, b, at, io).digest.None? ==> SealBundle(w, b, at, io).world.tokens == w.tokens
  {
    hide Accepts, Readback, ValidBundle;
  }
}
